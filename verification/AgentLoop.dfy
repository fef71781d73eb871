/** The agent turn loop: provider calls, tool calls, hooks, overflow recovery and the persistence mirror. */
module AgentLoop {
  import opened Prelude
  import opened Messages
  import opened Repair
  import opened Blocks
  import opened SessionLog
  import opened Consolidation
  import opened ConsolidationRuns
  import opened Compaction
  import opened Conversation

  // ----- what the outside world may do -----

  datatype Request = Request(id: string, name: string, arguments: string)

  datatype Response = Response(content: Option<string>, calls: seq<Request>, finishReason: string,
                               reasoning: Option<string>, thinking: Option<string>)

  datatype ChatOutcome = Reply(response: Response) | ContextOverflow | ProviderError

  datatype PreTool = Allow | Reject(reason: string) | PreToolError(detail: string)

  /** A before_tool decision; the replaced arguments only reach the tool. */
  datatype Decision = NoDecision | Decision(params: Option<string>, block: bool, reason: string)

  /** A tool run: through the handle, else through the plain call, which may fail. */
  datatype Invocation = Handled(content: string, file: string) | Legacy(content: string) | ToolError(detail: string)

  datatype HookReply = Followup(text: string) | HookError

  datatype OverflowReply = Compact(messages: Option<seq<Message>>) | OverflowHookError

  datatype Go = Continue | Stop | PolicyError

  /** An iteration policy; it must stop for good from its horizon on. */
  datatype IterationPolicy = IterationPolicy(answer: nat -> Go, again: Go, limitText: Option<string>, horizon: nat)

  /** One run's oracles, indexed by iteration, by call within the iteration, or by persisted message. */
  datatype Env = Env(
    chat: nat -> ChatOutcome,
    onToolCallsFails: nat -> bool,
    preTool: (nat, nat) -> PreTool,
    decide: (nat, nat) -> Decision,
    invoke: (nat, nat) -> Invocation,
    onOverflow: Option<nat -> OverflowReply>,
    systemPrompt: Option<Message>,
    summary: nat -> Option<string>,
    saved: nat -> bool,
    beforeFinish: Option<nat -> HookReply>,
    finishDecision: nat -> string,
    stored: nat -> bool,
    now: nat -> string,
    stripThink: string -> string,
    policy: Option<IterationPolicy>)

  ghost predicate WellBehaved(env: Env) {
    && (env.policy.Some? ==> forall i: nat | i >= env.policy.value.horizon :: env.policy.value.answer(i) != Continue)
    && (env.systemPrompt.Some? ==> env.systemPrompt.value.role.System?)
  }

  datatype LoopError = PolicyFailed | ProviderFailed | ToolCallsHookFailed | OverflowFailed | PersistFailed | FinishHookFailed

  const CONTENT_FILE := "_content_file"

  function Decimal(n: nat): string {
    if n < 10 then [('0' as int + n) as char] else Decimal(n / 10) + [('0' as int + n % 10) as char]
  }

  /** The number that decimal digits stand for. */
  function Number(digits: string): int {
    if digits == "" then 0 else 10 * Number(digits[..|digits| - 1]) + (digits[|digits| - 1] as int - '0' as int)
  }

  lemma {:induction false} DecimalReadsBack(n: nat)
    ensures Number(Decimal(n)) == n && forall i | 0 <= i < |Decimal(n)| :: '0' <= Decimal(n)[i] <= '9'
  {
    var digits := Decimal(n);
    if n >= 10 {
      DecimalReadsBack(n / 10);
      assert digits[..|digits| - 1] == Decimal(n / 10);
    } else {
      assert digits[..0] == "";
    }
  }

  /** The fixed wordings of the loop. */
  datatype Texts = Texts(cannotRecover: string, modelError: string, limit: nat -> string, toolError: (string, string) -> string)

  function StandardTexts(): Texts {
    Texts(
      "The conversation exceeded the model's context window and I couldn't recover. Try starting a new session.",
      "Sorry, I encountered an error calling the AI model.",
      (n: nat) => "I reached the maximum number of tool call iterations (" + Decimal(n) +
           ") without completing the task. You can try breaking the task into smaller steps.",
      (name: string, detail: string) => "Error executing " + name + ": " + detail +
                        "\n\n[Analyze the error above and try a different approach.]")
  }

  // ----- messages the loop builds -----

  function Named(calls: seq<Request>): seq<Request> {
    if calls == [] then []
    else
      var last := calls[|calls| - 1];
      Named(calls[..|calls| - 1]) + (if Blank(last.name) then [] else [last])
  }

  function AsCalls(calls: seq<Request>): (r: seq<ToolCall>)
    ensures |r| == |calls|
    ensures forall i | 0 <= i < |calls| :: r[i] == ToolCall(calls[i].id, calls[i].name, Some(calls[i].arguments))
  {
    seq(|calls|, i requires 0 <= i < |calls| => ToolCall(calls[i].id, calls[i].name, Some(calls[i].arguments)))
  }

  /** Reasoning text and thinking blocks travel with the assistant message. */
  function Extras(response: Response): map<string, string> {
    (if response.reasoning.Some? then map["reasoning_content" := response.reasoning.value] else map[]) +
    (if response.thinking.Some? then map["thinking_blocks" := response.thinking.value] else map[])
  }

  function CallMessage(response: Response, calls: seq<Request>): Message {
    Message(Assistant, Text(response.content.GetOr("")), Some(AsCalls(calls)), None, None, Extras(response))
  }

  function ReplyMessage(response: Response, clean: string): Message {
    Message(Assistant, Text(clean), None, None, None, Extras(response))
  }

  function Nudge(text: string): Message {
    Message(User, Text(text), None, None, None, map[])
  }

  function ToolMessage(call: Request, result: string, file: string): Message {
    Message(Tool, Text(result), None, Some(call.id), Some(call.name), if file == "" then map[] else map[CONTENT_FILE := file])
  }

  /** What is written to the log: everything but the transport keys. */
  function Persisted(m: Message): Message {
    m.(extra := map k | k in m.extra && !HasPrefix(k, "_") :: m.extra[k])
  }

  function PersistedAll(messages: seq<Message>): (r: seq<Message>)
    ensures |r| == |messages| && forall i | 0 <= i < |messages| :: r[i] == Persisted(messages[i])
  {
    seq(|messages|, i requires 0 <= i < |messages| => Persisted(messages[i]))
  }

  /** The lines a run adds to the log, stamped from the given tick of the clock on. */
  function Mirror(emitted: seq<Message>, now: nat -> string, tick: nat): seq<Message> {
    Rewrite(PersistedAll(emitted), Preparer(Live, now), tick)
  }

  function NamesOf(calls: seq<ToolCall>): (names: seq<string>)
    ensures |names| == |calls|
    ensures forall i | 0 <= i < |calls| :: calls[i].ToolCall? ==> names[i] == calls[i].name
  {
    if calls == [] then []
    else
      var last := calls[|calls| - 1];
      NamesOf(calls[..|calls| - 1]) + [if last.ToolCall? then last.name else ""]
  }

  /** The names of all calls declared in a transcript, in order. */
  function CallNames(messages: seq<Message>): seq<string> {
    if messages == [] then []
    else
      var last := messages[|messages| - 1];
      CallNames(messages[..|messages| - 1]) + (if last.role.Assistant? then NamesOf(CallList(last)) else [])
  }

  /** The message that answers a call: its own result, the reason it was refused, or the error it ran into. */
  function AnswerTo(texts: Texts, call: Request, pre: PreTool, decision: Decision, invocation: Invocation): (r: Message)
    ensures r.role.Tool? && r.toolCallId == Some(call.id)
  {
    if pre.PreToolError? then ToolMessage(call, texts.toolError(call.name, pre.detail), "")
    else if pre.Reject? && pre.reason != "" then ToolMessage(call, pre.reason, "")
    else if decision.Decision? && decision.block then
      ToolMessage(call, if decision.reason == "" then "blocked" else decision.reason, "")
    else
      match invocation
      case Handled(content, file) => ToolMessage(call, content, file)
      case Legacy(content) => ToolMessage(call, content, "")
      case ToolError(detail) => ToolMessage(call, texts.toolError(call.name, detail), "")
  }

  /** What an answer says: the error of a failing hook, why it was refused, or what the tool run came to. */
  lemma AnswerSaysExactly(texts: Texts, call: Request, pre: PreTool, decision: Decision, run: Invocation)
    ensures var answer := AnswerTo(texts, call, pre, decision, run);
      && answer.role == Tool && answer.calls == None && answer.toolCallId == Some(call.id) && answer.name == Some(call.name)
      && (pre.PreToolError? ==> answer.content == Text(texts.toolError(call.name, pre.detail)) && answer.extra == map[])
      && (pre.Reject? && pre.reason != "" ==> answer.content == Text(pre.reason) && answer.extra == map[])
      && (pre == Allow || pre == Reject("") ==>
            if decision.Decision? && decision.block then
              answer.content == Text(if decision.reason == "" then "blocked" else decision.reason) && answer.extra == map[]
            else
              && (run.Handled? ==> answer.content == Text(run.content) &&
                                   answer.extra == if run.file == "" then map[] else map["_content_file" := run.file])
              && (run.Legacy? ==> answer.content == Text(run.content) && answer.extra == map[])
              && (run.ToolError? ==> answer.content == Text(texts.toolError(call.name, run.detail)) && answer.extra == map[]))
  {
  }

  /** Only keys that start with an underscore are not persisted. */
  lemma PersistedWithoutTransportKeys(m: Message, key: string)
    ensures Persisted(m) == m.(extra := Persisted(m).extra)
    ensures key in Persisted(m).extra <==> key in m.extra && (key == "" || key[0] != '_')
    ensures key in Persisted(m).extra ==> Persisted(m).extra[key] == m.extra[key]
  {
    assert "_" <= key <==> key != "" && key[0] == '_';
  }

  // ----- the loop -----

  class AgentLoop {
    const conv: DefaultConversation
    const appendable: bool
    const maxIterations: nat
    const maxRecoveryAttempts: nat
    const texts: Texts
    var buffer: seq<Message>
    var writes: nat
    ghost var emitted: seq<Message>
    ghost var requests: seq<seq<Message>>

    constructor (conv: DefaultConversation, appendable: bool, maxIterations: int, maxRecoveryAttempts: int, texts: Texts)
      ensures this.conv == conv && this.appendable == appendable
      ensures this.maxIterations == if maxIterations <= 0 then 40 else maxIterations
      ensures this.maxRecoveryAttempts == if maxRecoveryAttempts < 1 then 3 else maxRecoveryAttempts
      ensures buffer == [] && writes == 0 && emitted == [] && requests == [] && this.texts == texts
    {
      this.texts := texts;
      this.conv := conv;
      this.appendable := appendable;
      this.maxIterations := if maxIterations <= 0 then 40 else maxIterations;
      this.maxRecoveryAttempts := if maxRecoveryAttempts < 1 then 3 else maxRecoveryAttempts;
      buffer, writes, emitted, requests := [], 0, [], [];
    }

    /** A loop that speaks in the fixed wordings. */
    static method Standard(conv: DefaultConversation, appendable: bool, maxIterations: int, maxRecoveryAttempts: int)
      returns (loop: AgentLoop)
      ensures fresh(loop) && loop.conv == conv && loop.texts == StandardTexts()
    {
      loop := new AgentLoop(conv, appendable, maxIterations, maxRecoveryAttempts, StandardTexts());
    }

    /** The log is what it was at the start of the run, plus the mirror of everything emitted since. */
    ghost predicate Mirrors(now: nat -> string, flush: bool, log0: seq<Message>, tick: nat)
      reads this, conv, conv.file
    {
      && conv.Valid()
      && (flush ==> writes == tick + |emitted| && conv.log == log0 + Mirror(emitted, now, tick))
      && (!flush ==> conv.log == log0)
    }

    /** Pointer and count lie between blocks, and the count cannot be taken inside one. */
    ghost predicate Safe()
      reads this, conv, conv.file, conv.policy
    {
      conv.IsSettled() && (conv.file.cachedTotal.Some? || Complete(conv.log))
    }

    /** Persists one message and takes one reading of the clock. */
    method Persist(env: Env, m: Message) returns (ok: bool)
      requires conv.Valid() && !LooksLikeMetadata(m)
      modifies this`writes, conv`log, conv.file
      ensures conv.Valid() && writes == old(writes) + 1
      ensures ok ==> conv.log == old(conv.log) + PrepareOne(m, Live, env.now(old(writes)))
      ensures old(Safe()) ==> Safe()
      ensures |old(conv.log)| <= |conv.log|
    {
      var tick := writes;
      writes := writes + 1;
      ok := conv.Append(m, Live, env.now(tick), env.stored(tick));
      if old(Safe()) {
        ghost var added := conv.log[|old(conv.log)|..];
        assert conv.log == old(conv.log) + added;
        AppendingStaysSettled(old(conv.log), added, conv.policy.Stored().summarizedThrough,
                              old(conv.file.cachedTotal), conv.file.cachedTotal);
      }
    }

    /** Appends to the buffer and, when persisting, to the conversation. */
    method Emit(env: Env, m: Message, persisted: Message, flush: bool, ghost log0: seq<Message>, ghost tick: nat)
      returns (ok: bool)
      requires Mirrors(env.now, flush, log0, tick) && persisted == Persisted(m)
      modifies this, conv`log, conv.file
      ensures conv.Valid() && requests == old(requests)
      ensures buffer == old(buffer) + [m] && emitted == old(emitted) + [m]
      ensures ok ==> Mirrors(env.now, flush, log0, tick)
      ensures old(Safe()) ==> Safe()
      ensures |old(conv.log)| <= |conv.log|
    {
      buffer := buffer + [m];
      emitted := emitted + [m];
      ok := true;
      if flush {
        MirrorExtends(old(emitted), m, env.now, tick);
        ok := Persist(env, persisted);
      }
    }

    /** Runs one call through the hooks and the executor; failures become the result text. */
    method RunTool(env: Env, call: Request, iteration: nat, index: nat) returns (answer: Message)
      ensures answer == AnswerTo(texts, call, env.preTool(iteration, index), env.decide(iteration, index),
                                 env.invoke(iteration, index))
      ensures answer.role == Tool && answer.calls == None && answer.toolCallId == Some(call.id) && answer.name == Some(call.name)
      ensures var pre, decision, run := env.preTool(iteration, index), env.decide(iteration, index), env.invoke(iteration, index);
        && (pre.PreToolError? ==> answer.content == Text(texts.toolError(call.name, pre.detail)) && answer.extra == map[])
        && (pre.Reject? && pre.reason != "" ==> answer.content == Text(pre.reason) && answer.extra == map[])
        && (pre == Allow || pre == Reject("") ==>
              if decision.Decision? && decision.block then
                answer.content == Text(if decision.reason == "" then "blocked" else decision.reason) && answer.extra == map[]
              else
                && (run.Handled? ==> answer.content == Text(run.content) &&
                                     answer.extra == if run.file == "" then map[] else map["_content_file" := run.file])
                && (run.Legacy? ==> answer.content == Text(run.content) && answer.extra == map[])
                && (run.ToolError? ==> answer.content == Text(texts.toolError(call.name, run.detail)) && answer.extra == map[]))
    {
      AnswerSaysExactly(texts, call, env.preTool(iteration, index), env.decide(iteration, index), env.invoke(iteration, index));
      var rejection, failure: Option<string>, result, file := "", None, "", "";
      match env.preTool(iteration, index) {
        case PreToolError(detail) => failure := Some(detail);
        case Reject(reason) => rejection := reason;
        case Allow =>
      }
      if failure.None? && rejection == "" {
        var decision := env.decide(iteration, index);
        if decision.Decision? && decision.block {
          rejection := if decision.reason == "" then "blocked" else decision.reason;
        }
      }
      if failure.None? {
        if rejection != "" {
          result := rejection;
        } else {
          match env.invoke(iteration, index) {
            case Handled(content, path) => result, file := content, path;
            case Legacy(content) => result := content;
            case ToolError(detail) => failure := Some(detail);
          }
        }
      }
      if failure.Some? {
        result := texts.toolError(call.name, failure.value);
      }
      answer := ToolMessage(call, result, file);
    }

    /** Answers every call in order, whatever the hooks and tools do. */
    method AnswerCalls(env: Env, calls: seq<Request>, iteration: nat, flush: bool, ghost log0: seq<Message>, ghost tick: nat)
      returns (ok: bool, ghost answers: seq<Message>)
      requires Mirrors(env.now, flush, log0, tick)
      modifies this, conv`log, conv.file
      ensures conv.Valid() && requests == old(requests)
      ensures ok ==> Mirrors(env.now, flush, log0, tick)
      ensures ok ==> AnswersFirst(texts, env, iteration, calls, answers) && |answers| == |calls|
      ensures ok ==> emitted == old(emitted) + answers && buffer == old(buffer) + answers
      ensures old(Safe()) ==> Safe()
      ensures |old(conv.log)| <= |conv.log|
    {
      answers := [];
      for j := 0 to |calls|
        invariant Mirrors(env.now, flush, log0, tick) && requests == old(requests)
        invariant AnswersFirst(texts, env, iteration, calls, answers) && |answers| == j
        invariant emitted == old(emitted) + answers && buffer == old(buffer) + answers
        invariant old(Safe()) ==> Safe()
        invariant |old(conv.log)| <= |conv.log|
      {
        var answer := RunTool(env, calls[j], iteration, j);
        ok := Emit(env, answer, Persisted(answer), flush, log0, tick);
        if !ok {
          return false, answers;
        }
        assert emitted == old(emitted) + (answers + [answer]);
        assert buffer == old(buffer) + (answers + [answer]);
        answers := answers + [answer];
      }
      ok := true;
    }

    method EmitCalls(env: Env, m: Message, calls: seq<Request>, iteration: nat, flush: bool,
                     ghost log0: seq<Message>, ghost tick: nat)
      returns (ok: bool, ghost answers: seq<Message>)
      requires Mirrors(env.now, flush, log0, tick) && Persisted(m) == m
      modifies this, conv`log, conv.file
      ensures conv.Valid() && requests == old(requests)
      ensures ok ==> Mirrors(env.now, flush, log0, tick)
      ensures ok ==> AnswersFirst(texts, env, iteration, calls, answers) && |answers| == |calls|
      ensures ok ==> emitted == old(emitted) + ([m] + answers) && buffer == old(buffer) + ([m] + answers)
      ensures old(Safe()) ==> Safe()
      ensures |old(conv.log)| <= |conv.log|
    {
      answers := [];
      ok := Emit(env, m, m, flush, log0, tick);
      if !ok {
        return false, answers;
      }
      ok, answers := AnswerCalls(env, calls, iteration, flush, log0, tick);
    }

    /** A reply with calls: the assistant message and its answers, as one round. */
    method TakeCalls(env: Env, response: Response, calls: seq<Request>, iteration: nat, flush: bool,
                     ghost log0: seq<Message>, ghost tick: nat)
      returns (error: Option<LoopError>, names: seq<string>, ghost round: seq<Message>)
      requires Mirrors(env.now, flush, log0, tick) && Rounds(emitted) && calls != []
      modifies this, conv`log, conv.file
      ensures conv.Valid() && requests == old(requests)
      ensures error != Some(PersistFailed) ==> Mirrors(env.now, flush, log0, tick) && Joined(old(emitted), round, names)
      ensures error != Some(PersistFailed) ==> emitted == old(emitted) + round && buffer == old(buffer) + round
      ensures error.None? ==> round != [] && round[0] == CallMessage(response, calls)
      ensures error.None? ==> AnswersFirst(texts, env, iteration, calls, round[1..]) && |round| == 1 + |calls|
      ensures old(Safe()) ==> Safe()
      ensures |old(conv.log)| <= |conv.log|
    {
      names, round := [], [];
      if env.onToolCallsFails(iteration) {
        NothingJoins(emitted);
        return Some(ToolCallsHookFailed), names, round;
      }
      var m := CallMessage(response, calls);
      NothingToStrip(m);
      var ok;
      ghost var answers;
      ok, answers := EmitCalls(env, m, calls, iteration, flush, log0, tick);
      if !ok {
        return Some(PersistFailed), names, round;
      }
      names := UsedNames(calls);
      round := [m] + answers;
      CallRoundJoins(old(emitted), texts, env, iteration, m, calls, answers);
      assert round[1..] == answers;
      error := None;
    }

    /** The reply message, then the nudge a finish hook asks for, if any. */
    method EmitReply(env: Env, reply: Message, iteration: nat, flush: bool, ghost log0: seq<Message>, ghost tick: nat)
      returns (error: Option<LoopError>, followup: string)
      requires Mirrors(env.now, flush, log0, tick) && Persisted(reply) == reply
      modifies this, conv`log, conv.file
      ensures conv.Valid() && requests == old(requests)
      ensures error.None? || error == Some(PersistFailed) || error == Some(FinishHookFailed)
      ensures error != Some(PersistFailed) ==> Mirrors(env.now, flush, log0, tick)
      ensures error.None? ==> followup == FollowupText(env, iteration)
      ensures error != Some(PersistFailed) ==>
                var round := if error.None? && followup != "" then [reply, Nudge(followup)] else [reply];
                emitted == old(emitted) + round && buffer == old(buffer) + round
      ensures old(Safe()) ==> Safe()
      ensures |old(conv.log)| <= |conv.log|
    {
      followup := "";
      var ok := Emit(env, reply, reply, flush, log0, tick);
      if !ok {
        return Some(PersistFailed), followup;
      }
      if env.beforeFinish.Some? {
        match env.beforeFinish.value(iteration) {
          case HookError => return Some(FinishHookFailed), followup;
          case Followup(text) => followup := text;
        }
      }
      if followup == "" {
        followup := env.finishDecision(iteration);
      }
      error := None;
      if followup != "" {
        NothingToStrip(Nudge(followup));
        ok := Emit(env, Nudge(followup), Nudge(followup), flush, log0, tick);
        if !ok {
          return Some(PersistFailed), followup;
        }
        assert old(emitted) + [reply] + [Nudge(followup)] == old(emitted) + [reply, Nudge(followup)];
        assert old(buffer) + [reply] + [Nudge(followup)] == old(buffer) + [reply, Nudge(followup)];
      }
    }

    /** A reply without calls: it ends the run, unless a hook asks for another turn with a nudge. */
    method TakeReply(env: Env, response: Response, iteration: nat, flush: bool, ghost log0: seq<Message>, ghost tick: nat)
      returns (error: Option<LoopError>, final: Option<string>, ghost round: seq<Message>)
      requires Mirrors(env.now, flush, log0, tick) && Rounds(emitted)
      modifies this, conv`log, conv.file
      ensures conv.Valid() && requests == old(requests)
      ensures error != Some(PersistFailed) ==> Mirrors(env.now, flush, log0, tick) && Joined(old(emitted), round, [])
      ensures error != Some(PersistFailed) ==> emitted == old(emitted) + round && buffer == old(buffer) + round
      ensures error.None? ==> final == ReplyEnds(texts, env, response, iteration) && round == ReplyRound(env, response, iteration)
      ensures old(Safe()) ==> Safe()
      ensures |old(conv.log)| <= |conv.log|
    {
      var clean := env.stripThink(response.content.GetOr(""));
      if response.finishReason == "error" {
        NothingJoins(emitted);
        return None, Some(if clean != "" then clean else texts.modelError), [];
      }
      var reply, followup := ReplyMessage(response, clean), "";
      NothingToStrip(reply);
      error, followup := EmitReply(env, reply, iteration, flush, log0, tick);
      if error.None? && followup != "" {
        round, final := [reply, Nudge(followup)], None;
        NudgedRoundJoins(old(emitted), reply, Nudge(followup));
      } else {
        round, final := [reply], Some(clean);
        ReplyRoundJoins(old(emitted), reply);
      }
    }

    /** What to retry with after an overflow; None when nothing can be done. */
    method Recover(env: Env, iteration: nat, hasSession: bool)
      returns (error: Option<LoopError>, compacted: Option<seq<Message>>)
      requires conv.Valid() && WellBehaved(env)
      modifies conv.policy`sidecar
      ensures error.None? || error == Some(OverflowFailed)
      ensures env.onOverflow.Some? ==>
                && conv.policy.Stored() == old(conv.policy.Stored())
                && match env.onOverflow.value(iteration)
                   case OverflowHookError => error.Some? && compacted.None?
                   case Compact(messages) => error.None? && compacted == messages
      ensures env.onOverflow.None? && !hasSession ==> error.None? && compacted.None?
      ensures env.onOverflow.None? && compacted.Some? && |conv.log| <= TAIL ==>
                compacted.value == SystemFirst(env.systemPrompt) + View(Shown(conv.log, conv.policy.Stored()))
      ensures old(AtRest()) ==> AtRest()
      ensures old(AtRest()) && env.onOverflow.None? && |conv.log| <= TAIL && compacted.Some? ==> Complete(compacted.value)
    {
      if env.onOverflow.Some? {
        match env.onOverflow.value(iteration) {
          case OverflowHookError => return Some(OverflowFailed), None;
          case Compact(messages) => return None, messages;
        }
      }
      if !hasSession {
        return None, None;
      }
      ghost var before := conv.policy.Stored();
      var ok;
      compacted, ok := conv.RecoverFromOverflow(env.systemPrompt, env.summary(iteration), env.saved(iteration));
      if old(AtRest()) {
        PassStaysSettled(conv.policy.window, conv.log, before, conv.file.cachedTotal, conv.CountNow(), env.summary(iteration));
        RecoveredViewIsComplete(conv.log, conv.policy.Stored(), conv.file.cachedTotal, env.systemPrompt);
      }
      error := if ok then None else Some(OverflowFailed);
    }

    /** Between runs: everything settled and the log complete. */
    ghost predicate AtRest()
      reads this, conv, conv.file, conv.policy
    {
      conv.IsSettled() && Complete(conv.log)
    }

    method ShouldContinue(env: Env, iteration: nat) returns (go: Go)
      ensures go == if env.policy.Some? then env.policy.value.answer(iteration)
                    else if iteration < maxIterations then Continue else Stop
    {
      if env.policy.Some? {
        return env.policy.value.answer(iteration);
      }
      go := if iteration < maxIterations then Continue else Stop;
    }

    /** One exchange with the provider: its calls are answered, its plain reply ends the run or is nudged on. */
    method TakeResponse(env: Env, response: Response, iteration: nat, flush: bool, ghost log0: seq<Message>, ghost tick: nat)
      returns (error: Option<LoopError>, names: seq<string>, final: Option<string>, ghost round: seq<Message>)
      requires Mirrors(env.now, flush, log0, tick) && Rounds(emitted)
      modifies this, conv`log, conv.file
      ensures conv.Valid() && requests == old(requests)
      ensures error != Some(PersistFailed) ==> Mirrors(env.now, flush, log0, tick) && Joined(old(emitted), round, names)
      ensures error != Some(PersistFailed) ==> emitted == old(emitted) + round && buffer == old(buffer) + round
      ensures error.None? ==> round == ResponseRound(texts, env, response, iteration)
      ensures error.None? ==> final == FinalOf(texts, env, response, iteration)
      ensures old(Safe()) ==> Safe()
      ensures |old(conv.log)| <= |conv.log|
    {
      var calls := DropMalformed(response.calls);
      names, final := [], None;
      if |calls| > 0 {
        error, names, round := TakeCalls(env, response, calls, iteration, flush, log0, tick);
        if error.None? {
          CallsMakeTheRound(texts, env, response, iteration, round);
        }
      } else {
        error, final, round := TakeReply(env, response, iteration, flush, log0, tick);
      }
    }

    /** What holds at every loop head of a run that started with the given log, tick and buffer. */
    ghost predicate Running(env: Env, run: RunStart, toolsUsed: seq<string>, compactions: nat)
      reads this, conv, conv.file, conv.policy
    {
      && Mirrors(env.now, run.flush, run.log, run.tick)
      && Rounds(emitted)
      && toolsUsed == CallNames(emitted)
      && (compactions == 0 ==> buffer == run.buffer + emitted)
      && (run.rested && Lasting(run.flush, emitted) ==> AtRest())
      && (run.paired && |conv.log| <= TAIL && (compactions == 0 || Lasting(run.flush, emitted)) ==>
            AllComplete(requests + [buffer]))
    }

    /** After an overflow: retry with a compacted buffer, if there is one. */
    method AfterOverflow(env: Env, iteration: nat, hasSession: bool, ghost run: RunStart,
                         ghost toolsUsed: seq<string>, ghost compactions: nat)
      returns (error: Option<LoopError>, retry: bool)
      requires Running(env, run, toolsUsed, compactions) && WellBehaved(env) && RunPossible(env, run)
      modifies this`buffer, conv.policy`sidecar
      ensures error.None? || (error == Some(OverflowFailed) && !retry)
      ensures Running(env, run, toolsUsed, if retry then compactions + 1 else compactions)
    {
      var compacted;
      error, compacted := Recover(env, iteration, hasSession);
      retry := error.None? && compacted.Some?;
      if retry {
        buffer := compacted.value;
        if run.paired && |conv.log| <= TAIL && Lasting(run.flush, emitted) {
          assert AllComplete(old(requests + [buffer]));
        }
      }
    }

    /** After a response: the round it led to is in the buffer, the transcript and the log. */
    method AfterResponse(env: Env, response: Response, iteration: nat, ghost run: RunStart,
                         flush: bool, toolsUsed: seq<string>, ghost compactions: nat)
      returns (error: Option<LoopError>, used: seq<string>, final: Option<string>)
      requires Running(env, run, toolsUsed, compactions) && RunPossible(env, run) && flush == run.flush
      modifies this, conv`log, conv.file
      ensures conv.Valid() && requests == old(requests)
      ensures error != Some(PersistFailed) ==> Running(env, run, used, compactions)
      ensures error.None? ==> emitted == old(emitted) + ResponseRound(texts, env, response, iteration)
      ensures error.None? ==> final == FinalOf(texts, env, response, iteration)
      ensures old(Safe()) ==> Safe()
      ensures |old(conv.log)| <= |conv.log|
    {
      var names;
      ghost var round;
      error, names, final, round := TakeResponse(env, response, iteration, flush, run.log, run.tick);
      used := toolsUsed + names;
      if error != Some(PersistFailed) {
        RoundTaken(run.buffer, old(buffer), old(emitted), old(requests), round);
        SpokenParts(old(emitted), round);
        if run.rested && Lasting(run.flush, emitted) {
          assert Lasting(run.flush, old(emitted));
          MirrorIsCompleteExactly(run.log, emitted, env.now, run.tick);
        }
      }
    }

    /** One iteration's outcome: an error, final content, or neither to go on. */
    method Exchange(env: Env, outcome: ChatOutcome, iteration: nat, hasSession: bool, recoveryAttempts: nat, flush: bool,
                    toolsUsed: seq<string>, compactions: nat, ghost run: RunStart)
      returns (error: Option<LoopError>, final: Option<string>, used: seq<string>, attempts: nat, compacted: nat)
      requires Running(env, run, toolsUsed, compactions) && WellBehaved(env) && RunPossible(env, run) && flush == run.flush
      requires compactions <= recoveryAttempts <= maxRecoveryAttempts
      modifies this, conv`log, conv.file, conv.policy`sidecar
      ensures conv.Valid() && requests == old(requests)
      ensures error != Some(PersistFailed) ==> Running(env, run, used, compacted)
      ensures compactions <= compacted <= attempts <= maxRecoveryAttempts
      ensures outcome.ContextOverflow? && recoveryAttempts == maxRecoveryAttempts ==>
                error.None? && final == Some(texts.cannotRecover)
      ensures error.None? ==> emitted == old(emitted) + OutcomeRound(texts, env, outcome, iteration)
      ensures outcome.Reply? && error.None? ==> final == FinalOf(texts, env, outcome.response, iteration)
      ensures outcome.ContextOverflow? && error.None? ==> final == None || final == Some(texts.cannotRecover)
      ensures outcome.ProviderError? ==> error == Some(ProviderFailed)
    {
      error, final, used, attempts, compacted := None, None, toolsUsed, recoveryAttempts, compactions;
      match outcome {
        case ProviderError =>
          error := Some(ProviderFailed);
        case ContextOverflow =>
          if recoveryAttempts >= maxRecoveryAttempts {
            final := Some(texts.cannotRecover);
          } else {
            attempts := attempts + 1;
            var retry;
            error, retry := AfterOverflow(env, iteration, hasSession, run, toolsUsed, compactions);
            if retry {
              compacted := compacted + 1;
            } else if error.None? {
              final := Some(texts.cannotRecover);
            }
          }
        case Reply(response) =>
          error, used, final := AfterResponse(env, response, iteration, run, flush, toolsUsed, compactions);
      }
    }

    method Begin(env: Env, hasSession: bool) returns (ghost run: RunStart)
      requires conv.Valid()
      modifies this`emitted, this`requests
      ensures run == old(StartOf(env, hasSession)) && RunPossible(env, run)
      ensures AtHead(env, run, [], [], 0)
    {
      run := StartOf(env, hasSession);
      RunBegins(run, env.now);
      emitted, requests := [], [];
    }

    method Ask(env: Env, ghost run: RunStart, ghost toolsUsed: seq<string>, ghost compactions: nat)
      requires Running(env, run, toolsUsed, compactions)
      modifies this`requests
      ensures requests == old(requests) + [buffer] && Running(env, run, toolsUsed, compactions)
    {
      AsksAgain(requests, buffer);
      requests := requests + [buffer];
    }

    /** The content of a run that no reply finished: the limit message, unless the policy now says to go on. */
    method ContentAtLimit(env: Env, iteration: nat) returns (error: Option<LoopError>, content: string)
      ensures error == if LimitContent(texts, env, maxIterations, iteration).None? then Some(PolicyFailed) else None
      ensures error.None? ==> LimitContent(texts, env, maxIterations, iteration) == Some(content)
    {
      error, content := None, "";
      if env.policy.None? {
        if iteration >= maxIterations {
          content := texts.limit(maxIterations);
        }
      } else {
        match env.policy.value.again {
          case PolicyError => error := Some(PolicyFailed);
          case Continue =>
          case Stop =>
            if env.policy.value.limitText.None? {
              error := Some(PolicyFailed);
            } else {
              content := env.policy.value.limitText.value;
            }
        }
      }
    }

    /** What holds when an iteration is over: the transcript is what the answers so far add. */
    ghost predicate AtHead(env: Env, run: RunStart, rounds: seq<seq<Message>>, toolsUsed: seq<string>, compactions: nat)
      reads this, conv, conv.file, conv.policy
    {
      && Running(env, run, toolsUsed, compactions)
      && |requests| == |rounds| && emitted == Joint(rounds) && AreRounds(RoundsOf(texts, env), rounds)
      && (compactions == 0 ==> Asked(requests, run.buffer, rounds))
    }

    /** One iteration: ask the provider and take what it answers. */
    method Iterate(env: Env, iteration: nat, hasSession: bool, recoveryAttempts: nat, flush: bool, toolsUsed: seq<string>,
                   compactions: nat, ghost run: RunStart, ghost rounds: seq<seq<Message>>)
      returns (error: Option<LoopError>, final: Option<string>, used: seq<string>, attempts: nat, compacted: nat,
               ghost soFar: seq<seq<Message>>)
      requires AtHead(env, run, rounds, toolsUsed, compactions) && iteration == |rounds| + 1
      requires WellBehaved(env) && RunPossible(env, run) && flush == run.flush
      requires compactions <= recoveryAttempts <= maxRecoveryAttempts
      modifies this, conv`log, conv.file, conv.policy`sidecar
      ensures conv.Valid() && |requests| == iteration
      ensures error != Some(PersistFailed) ==> Running(env, run, used, compacted)
      ensures compacted <= attempts <= maxRecoveryAttempts
      ensures error.None? ==> AtHead(env, run, soFar, used, compacted) && |soFar| == iteration
      ensures error.None? && final.Some? ==> Ends(texts, env, env.chat(iteration), iteration, final.value)
    {
      Ask(env, run, toolsUsed, compactions);
      error, final, used, attempts, compacted :=
        Exchange(env, env.chat(iteration), iteration, hasSession, recoveryAttempts, flush, toolsUsed, compactions, run);
      soFar := rounds + [RoundsOf(texts, env)(iteration)];
      OneMoreRound(RoundsOf(texts, env), rounds);
      if compactions == 0 {
        AskedExtends(old(requests), run.buffer, rounds, RoundsOf(texts, env)(iteration));
      }
    }

    /** The iterations of a run, until it ends or is told to stop. */
    method RunIterations(env: Env, hasSession: bool, ghost run: RunStart)
      returns (error: Option<LoopError>, content: string, finished: bool, toolsUsed: seq<string>, compactions: nat,
               iteration: nat, ghost rounds: seq<seq<Message>>)
      requires WellBehaved(env) && RunPossible(env, run) && run.flush == (appendable && hasSession)
      requires AtHead(env, run, [], [], 0)
      modifies this, conv`log, conv.file, conv.policy`sidecar
      ensures conv.Valid()
      ensures error != Some(PersistFailed) ==> Running(env, run, toolsUsed, compactions)
      ensures compactions <= maxRecoveryAttempts && |requests| == iteration
      ensures env.policy.None? ==> iteration <= maxIterations
      ensures error.None? ==> AtHead(env, run, rounds, toolsUsed, compactions)
      ensures env.policy.None? && error.None? && !finished ==> iteration == maxIterations
      ensures error.None? && finished ==> iteration > 0 && Ends(texts, env, env.chat(iteration), iteration, content)
    {
      var flush := appendable && hasSession;
      toolsUsed, content, finished, compactions := [], "", false, 0;
      var recoveryAttempts := 0;
      iteration, rounds := 0, [];
      var bound := if env.policy.Some? then env.policy.value.horizon else maxIterations;
      while true
        invariant iteration <= bound && compactions <= recoveryAttempts <= maxRecoveryAttempts
        invariant AtHead(env, run, rounds, toolsUsed, compactions) && iteration == |rounds|
        decreases bound - iteration
      {
        var go := ShouldContinue(env, iteration);
        if go == PolicyError {
          return Some(PolicyFailed), "", false, toolsUsed, compactions, iteration, rounds;
        }
        if go == Stop {
          return None, "", false, toolsUsed, compactions, iteration, rounds;
        }
        iteration := iteration + 1;
        var final;
        error, final, toolsUsed, recoveryAttempts, compactions, rounds :=
          Iterate(env, iteration, hasSession, recoveryAttempts, flush, toolsUsed, compactions, run, rounds);
        if error.Some? {
          return error, "", false, toolsUsed, compactions, iteration, rounds;
        }
        if final.Some? {
          return None, final.value, true, toolsUsed, compactions, iteration, rounds;
        }
      }
    }

    /** A whole run. `finished` tells whether a reply, an error text or a failed recovery set the final content. */
    method RunAgentLoop(env: Env, hasSession: bool)
      returns (error: Option<LoopError>, content: string, finished: bool, toolsUsed: seq<string>, compactions: nat,
               ghost run: RunStart, ghost rounds: seq<seq<Message>>)
      requires conv.Valid() && WellBehaved(env)
      modifies this, conv`log, conv.file, conv.policy`sidecar
      ensures conv.Valid()
      ensures run == old(StartOf(env, hasSession))
      ensures error != Some(PersistFailed) ==> Running(env, run, toolsUsed, compactions)
      ensures compactions <= maxRecoveryAttempts
      ensures env.policy.None? ==> |requests| <= maxIterations
      ensures env.policy.None? && error.None? && !finished ==>
                |requests| == maxIterations && content == texts.limit(maxIterations)
      ensures error.None? && !finished ==> LimitContent(texts, env, maxIterations, |requests|) == Some(content)
      ensures error.None? && compactions == 0 ==> Asked(requests, run.buffer, rounds)
      ensures error.None? ==> |requests| == |rounds| && emitted == Joint(rounds) && AreRounds(RoundsOf(texts, env), rounds)
      ensures error.None? && finished ==> |requests| > 0 && Ends(texts, env, env.chat(|requests|), |requests|, content)
    {
      run := Begin(env, hasSession);
      var iteration;
      error, content, finished, toolsUsed, compactions, iteration, rounds := RunIterations(env, hasSession, run);
      if error.Some? {
        return;
      }
      if !finished {
        error, content := ContentAtLimit(env, iteration);
      }
    }

    /** Persists the user message that opens a turn. */
    method AppendUser(env: Env, user: Message) returns (ok: bool)
      requires conv.Valid() && user.role.User? && !LooksLikeMetadata(user)
      modifies this`writes, conv`log, conv.file
      ensures conv.Valid() && writes == old(writes) + 1
      ensures ok ==> conv.log == old(conv.log) + PrepareOne(user, Live, env.now(old(writes)))
      ensures old(AtRest()) && ok ==> AtRest()
      ensures |old(conv.log)| <= |conv.log|
    {
      ok := Persist(env, user);
      if old(AtRest()) && ok {
        PreparedUserIsComplete(user, env.now(old(writes)));
        CompleteConcat(old(conv.log), PrepareOne(user, Live, env.now(old(writes))));
      }
    }

    /** What the end-of-turn pass stores. */
    ghost function AfterTurn(env: Env, hook: bool, before: State): State
      requires conv.CountNow() <= |conv.log|
      reads conv, conv.file
    {
      if hook then before
      else Maintained(conv.policy.window, conv.log, conv.CountNow(), before, env.summary(0), env.saved(0))
    }

    /** End of turn: one maintenance pass. */
    method Maintain(env: Env, hook: bool)
      requires conv.Valid()
      modifies conv.policy`sidecar
      ensures old(AtRest()) ==> AtRest()
      ensures conv.CountNow() <= |conv.log|
      ensures conv.policy.Stored() == AfterTurn(env, hook, old(conv.policy.Stored()))
    {
      ghost var before := conv.policy.Stored();
      conv.PostTurn(hook, env.summary(0), env.saved(0));
      if old(AtRest()) {
        PassStaysSettled(conv.policy.window, conv.log, before, conv.file.cachedTotal, conv.CountNow(), env.summary(0));
      }
    }

    /** The prompt that the conversation builds from its present log and sidecar. */
    ghost function PromptFor(system: Message, user: Message, isolated: bool): seq<Message>
      reads conv, conv.policy
    {
      Compacted([system] + (if isolated then [] else View(Shown(conv.log, conv.policy.Stored()))) + [user], conv.promptBudget)
    }

    method SeedPrompt(system: Message, user: Message, isolated: bool)
      requires conv.Valid() && system.role.System? && user.role.User?
      modifies this`buffer
      ensures buffer != [] && buffer[|buffer| - 1] == user
      ensures |conv.log| <= TAIL ==> buffer == PromptFor(system, user, isolated)
      ensures AtRest() && |conv.log| <= TAIL ==> Complete(buffer)
    {
      buffer := conv.BuildPrompt(system, user, isolated);
      if AtRest() && |conv.log| <= TAIL {
        if isolated {
          IsolatedPromptIsComplete(system, user, conv.promptBudget);
        } else {
          PromptIsComplete(conv.log, conv.policy.Stored(), conv.file.cachedTotal, system, user, conv.promptBudget);
        }
      }
    }

    /** Seeds the prompt and persists the user message. */
    method OpenTurn(env: Env, system: Message, user: Message, isolated: bool) returns (ok: bool)
      requires conv.Valid() && system.role.System? && user.role.User? && !LooksLikeMetadata(user)
      modifies this`buffer, this`writes, conv`log, conv.file
      ensures conv.Valid() && buffer != [] && buffer[|buffer| - 1] == user
      ensures |old(conv.log)| <= TAIL ==> buffer == old(PromptFor(system, user, isolated))
      ensures ok ==> conv.log == old(conv.log) + (if appendable then PrepareOne(user, Live, env.now(old(writes))) else [])
      ensures writes == old(writes) + (if appendable then 1 else 0)
      ensures old(AtRest()) && ok ==> AtRest() && (|conv.log| <= TAIL ==> Complete(buffer))
    {
      SeedPrompt(system, user, isolated);
      ok := true;
      if appendable {
        ok := AppendUser(env, user);
      }
    }

    /** A whole turn: prompt, user message, loop, and the end-of-turn pass or the list of new messages to record. */
    method ProcessTurn(env: Env, system: Message, user: Message, isolated: bool, hasSession: bool, hook: bool)
      returns (error: Option<LoopError>, content: string, newMessages: seq<Message>, compactions: nat,
               ghost prompt: seq<Message>, ghost rounds: seq<seq<Message>>, ghost left: State)
      requires conv.Valid() && WellBehaved(env) && system.role.System? && user.role.User? && !LooksLikeMetadata(user)
      modifies this, conv`log, conv.file, conv.policy`sidecar
      ensures conv.Valid()
      ensures |old(conv.log)| <= TAIL ==> prompt == old(PromptFor(system, user, isolated))
      ensures error.None? ==> Rounds(emitted) && |rounds| == |requests|
      ensures error.None? ==> emitted == Joint(rounds) && AreRounds(RoundsOf(texts, env), rounds)
      ensures error.None? && compactions == 0 ==> Asked(requests, prompt, rounds) && newMessages == [user] + emitted
      ensures error.None? ==> Closes(texts, env, maxIterations, |requests|, content)
      ensures error.None? && appendable && hasSession ==>
                conv.log == old(conv.log) + PrepareOne(user, Live, env.now(old(writes))) + Mirror(emitted, env.now, old(writes) + 1)
      ensures !appendable && error.None? ==> conv.log == old(conv.log)
      ensures error.None? && appendable ==>
                conv.CountNow() <= |conv.log| && conv.policy.Stored() == AfterTurn(env, hook, left)
      ensures old(AtRest()) && error != Some(PersistFailed) && Lasting(appendable && hasSession, emitted) ==> AtRest()
      ensures old(AtRest()) && error.None? ==> (Complete(conv.log) <==> Lasting(appendable && hasSession, emitted))
      ensures (old(AtRest()) && env.onOverflow.None? && |conv.log| <= TAIL && error != Some(PersistFailed)
               && (compactions == 0 || Lasting(appendable && hasSession, emitted))) ==> AllComplete(requests)
    {
      content, newMessages, compactions, rounds, left := "", [], 0, [], FRESH;
      var ok := OpenTurn(env, system, user, isolated);
      prompt := buffer;
      if !ok {
        error := Some(PersistFailed);
        return;
      }
      var initial := buffer;
      error, content, compactions, rounds := RunTurn(env, hasSession);
      if error.Some? {
        content := "";
        return;
      }
      newMessages := NewMessages(initial);
      left := conv.policy.Stored();
      if appendable {
        Maintain(env, hook);
      }
    }

    /** The run of a turn, and what it leaves of the log. */
    method RunTurn(env: Env, hasSession: bool)
      returns (error: Option<LoopError>, content: string, compactions: nat, ghost rounds: seq<seq<Message>>)
      requires conv.Valid() && WellBehaved(env)
      modifies this, conv`log, conv.file, conv.policy`sidecar
      ensures conv.Valid()
      ensures error.None? ==> Rounds(emitted) && |rounds| == |requests|
      ensures error.None? ==> emitted == Joint(rounds) && AreRounds(RoundsOf(texts, env), rounds)
      ensures error.None? && compactions == 0 ==> Asked(requests, old(buffer), rounds) && buffer == old(buffer) + emitted
      ensures error.None? ==> Closes(texts, env, maxIterations, |requests|, content)
      ensures error.None? ==>
                conv.log == old(conv.log) + (if appendable && hasSession then Mirror(emitted, env.now, old(writes)) else [])
      ensures old(AtRest()) && error != Some(PersistFailed) && Lasting(appendable && hasSession, emitted) ==> AtRest()
      ensures old(AtRest()) && error.None? ==> (Complete(conv.log) <==> Lasting(appendable && hasSession, emitted))
      ensures error != Some(PersistFailed) ==> |old(conv.log)| <= |conv.log|
      ensures (old(AtRest() && Complete(buffer)) && env.onOverflow.None? && |conv.log| <= TAIL && error != Some(PersistFailed)
               && (compactions == 0 || Lasting(appendable && hasSession, emitted))) ==> AllComplete(requests)
    {
      var finished, toolsUsed;
      ghost var run;
      error, content, finished, toolsUsed, compactions, run, rounds := RunAgentLoop(env, hasSession);
      if error.None? && run.rested && run.flush {
        MirrorIsCompleteExactly(run.log, emitted, env.now, run.tick);
      }
    }

    /** What the buffer holds from the user message on, or nothing when a compaction left it shorter than that. */
    method NewMessages(initial: seq<Message>) returns (messages: seq<Message>)
      requires initial != []
      ensures |buffer| >= |initial| - 1 ==> messages == buffer[|initial| - 1..]
      ensures |buffer| < |initial| - 1 ==> messages == []
      ensures forall added | buffer == initial + added :: messages == [initial[|initial| - 1]] + added
    {
      var cut := if |initial| - 1 > |buffer| then |buffer| else |initial| - 1;
      messages := buffer[cut..];
    }

    ghost function StartOf(env: Env, hasSession: bool): RunStart
      reads this, conv, conv.file, conv.policy
    {
      RunStart(appendable && hasSession, conv.log, writes, buffer, AtRest(),
               AtRest() && Complete(buffer) && env.onOverflow.None?)
    }
  }

  /** Where a run started: what it persists, the log, the clock tick and the buffer it found. */
  datatype RunStart = RunStart(flush: bool, log: seq<Message>, tick: nat, buffer: seq<Message>, rested: bool, paired: bool)

  predicate RunPossible(env: Env, run: RunStart) {
    && (run.rested ==> Complete(run.log))
    && (run.paired ==> run.rested && env.onOverflow.None?)
  }

  predicate AllComplete(prompts: seq<seq<Message>>) {
    forall p | p in prompts :: Complete(p)
  }

  lemma RunBegins(run: RunStart, now: nat -> string)
    ensures Mirror([], now, run.tick) == [] && run.log + [] == run.log && run.buffer + [] == run.buffer
    ensures run.paired && Complete(run.buffer) ==> AllComplete([] + [run.buffer])
  {
  }

  lemma AsksAgain(requests: seq<seq<Message>>, buffer: seq<Message>)
    ensures AllComplete(requests + [buffer]) ==> AllComplete(requests + [buffer] + [buffer])
  {
  }

  method DropMalformed(calls: seq<Request>) returns (kept: seq<Request>)
    ensures kept == Named(calls)
  {
    kept := [];
    for i := 0 to |calls|
      invariant kept == Named(calls[..i])
    {
      assert calls[..i + 1][..i] == calls[..i];
      if !Blank(calls[i].name) {
        kept := kept + [calls[i]];
      }
    }
    assert calls[..|calls|] == calls;
  }

  /** The calls that are taken up are exactly those with a name, in order. */
  lemma {:induction false} NamedExactly(calls: seq<Request>) returns (at: seq<nat>)
    ensures StandAt(Named(calls), calls, at)
    ensures forall i | 0 <= i < |calls| :: i in at <==> exists k | 0 <= k < |calls[i].name| :: !IsSpace(calls[i].name[k])
  {
    at := [];
    if calls != [] {
      var front, last := calls[..|calls| - 1], calls[|calls| - 1];
      at := NamedExactly(front);
      StandAtExtends(Named(front), front, at, last, !Blank(last.name));
      at := at + if Blank(last.name) then [] else [|front|];
      assert calls == front + [last] && Named(calls) == Named(front) + if Blank(last.name) then [] else [last];
    }
  }

  /** A complete buffer that takes a whole round stays complete. */
  lemma RoundTaken(start: seq<Message>, buffer: seq<Message>, emitted: seq<Message>, requests: seq<seq<Message>>,
                   round: seq<Message>)
    requires Complete(round)
    ensures AllComplete(requests + [buffer]) ==> AllComplete(requests + [buffer + round])
    ensures start + emitted + round == start + (emitted + round)
  {
    if AllComplete(requests + [buffer]) {
      assert buffer in requests + [buffer];
      CompleteConcat(buffer, round);
      forall p | p in requests + [buffer + round] ensures Complete(p) {
        if p in requests {
          assert p in requests + [buffer];
        }
      }
    }
  }

  function FirstNonEmpty(a: string, b: string): string {
    if a != "" then a else b
  }

  /** The follow-up the finish hooks ask for, or "". */
  function FollowupText(env: Env, iteration: nat): string {
    var first := if env.beforeFinish.Some? && env.beforeFinish.value(iteration).Followup?
                 then env.beforeFinish.value(iteration).text else "";
    FirstNonEmpty(first, env.finishDecision(iteration))
  }

  /** The final content a reply without calls leaves, or None when the run goes on. */
  function ReplyEnds(texts: Texts, env: Env, response: Response, iteration: nat): Option<string> {
    var clean := env.stripThink(response.content.GetOr(""));
    if response.finishReason == "error" then Some(FirstNonEmpty(clean, texts.modelError))
    else if FollowupText(env, iteration) == "" then Some(clean)
    else None
  }

  /** The messages a reply without calls adds. */
  function ReplyRound(env: Env, response: Response, iteration: nat): seq<Message> {
    if response.finishReason == "error" then []
    else
      var reply := ReplyMessage(response, env.stripThink(response.content.GetOr("")));
      if FollowupText(env, iteration) == "" then [reply] else [reply, Nudge(FollowupText(env, iteration))]
  }

  /** The answers to a list of calls, each as its own hooks and its own tool run decide. */
  function AnswersOf(texts: Texts, env: Env, iteration: nat, calls: seq<Request>): (answers: seq<Message>)
    ensures |answers| == |calls|
  {
    seq(|calls|, (j: nat) requires j < |calls| =>
      AnswerTo(texts, calls[j], env.preTool(iteration, j), env.decide(iteration, j), env.invoke(iteration, j)))
  }

  /** The messages a response adds: named calls with their answers, else a reply. */
  function ResponseRound(texts: Texts, env: Env, response: Response, iteration: nat): seq<Message> {
    var calls := Named(response.calls);
    if calls != [] then [CallMessage(response, calls)] + AnswersOf(texts, env, iteration, calls)
    else ReplyRound(env, response, iteration)
  }

  lemma CallsMakeTheRound(texts: Texts, env: Env, response: Response, iteration: nat, round: seq<Message>)
    requires var calls := Named(response.calls);
      && calls != [] && |round| == 1 + |calls| && round[0] == CallMessage(response, calls)
      && AnswersFirst(texts, env, iteration, calls, round[1..])
    ensures round == ResponseRound(texts, env, response, iteration) && FinalOf(texts, env, response, iteration) == None
  {
    assert round[1..] == AnswersOf(texts, env, iteration, Named(response.calls));
    assert round == [round[0]] + round[1..];
  }

  function FinalOf(texts: Texts, env: Env, response: Response, iteration: nat): Option<string> {
    if Named(response.calls) != [] then None else ReplyEnds(texts, env, response, iteration)
  }

  /** What travels with an assistant message: the reasoning text and the thinking blocks of its response, if any. */
  ghost predicate CarriesReasoning(m: Message, response: Response) {
    && (forall key :: key in m.extra <==>
          (key == "reasoning_content" && response.reasoning.Some?) || (key == "thinking_blocks" && response.thinking.Some?))
    && (response.reasoning.Some? ==> m.extra["reasoning_content"] == response.reasoning.value)
    && (response.thinking.Some? ==> m.extra["thinking_blocks"] == response.thinking.value)
  }

  lemma ReasoningIsCarried(response: Response, calls: seq<Request>, clean: string)
    ensures CarriesReasoning(CallMessage(response, calls), response)
    ensures CarriesReasoning(ReplyMessage(response, clean), response)
  {
    assert "reasoning_content"[0] == 'r' && "thinking_blocks"[0] == 't';
  }

  /** The assistant message of a round with calls declares exactly these, in order. */
  lemma CallMessageSaysExactly(response: Response, calls: seq<Request>)
    ensures var m := CallMessage(response, calls);
      && m.role == Assistant && m.toolCallId == None && CarriesReasoning(m, response)
      && m.content == Text(if response.content.Some? then response.content.value else "")
      && m.calls.Some? && |m.calls.value| == |calls|
      && forall j | 0 <= j < |calls| :: m.calls.value[j] == ToolCall(calls[j].id, calls[j].name, Some(calls[j].arguments))
  {
    ReasoningIsCarried(response, calls, "");
  }

  /** The round of a response with calls: the assistant message, and behind it the answer to each of its calls. */
  lemma CallRoundSaysExactly(texts: Texts, env: Env, response: Response, iteration: nat)
    requires Named(response.calls) != []
    ensures var calls, round := Named(response.calls), ResponseRound(texts, env, response, iteration);
      && |round| == 1 + |calls| && round[0] == CallMessage(response, calls)
      && (forall j | 0 <= j < |calls| ::
            round[j + 1] == AnswerTo(texts, calls[j], env.preTool(iteration, j), env.decide(iteration, j), env.invoke(iteration, j)))
      && FinalOf(texts, env, response, iteration) == None
  {
    var calls := Named(response.calls);
    var answers := AnswersOf(texts, env, iteration, calls);
    HeadAndAnswers(CallMessage(response, calls), answers, ResponseRound(texts, env, response, iteration));
  }

  lemma HeadAndAnswers(head: Message, answers: seq<Message>, round: seq<Message>)
    requires round == [head] + answers
    ensures |round| == 1 + |answers| && round[0] == head && forall j | 0 <= j < |answers| :: round[j + 1] == answers[j]
  {
  }

  /** The round of a reply without calls: an error adds nothing, else the reply, and the nudge that a finish hook asks for. */
  lemma ReplyRoundSaysExactly(texts: Texts, env: Env, response: Response, iteration: nat)
    requires Named(response.calls) == []
    ensures var round, final := ResponseRound(texts, env, response, iteration), FinalOf(texts, env, response, iteration);
      var clean := env.stripThink(if response.content.Some? then response.content.value else "");
      var hook := if env.beforeFinish.Some? then env.beforeFinish.value(iteration) else Followup("");
      var nudge := if hook.Followup? && hook.text != "" then hook.text else env.finishDecision(iteration);
      if response.finishReason == "error" then
        round == [] && final == Some(if clean != "" then clean else texts.modelError)
      else
        && round != [] && round[0] == Message(Assistant, Text(clean), None, None, None, round[0].extra)
        && CarriesReasoning(round[0], response)
        && (if nudge == "" then |round| == 1 && final == Some(clean)
            else |round| == 2 && round[1] == Message(User, Text(nudge), None, None, None, map[]) && final == None)
  {
    ReasoningIsCarried(response, [], env.stripThink(response.content.GetOr("")));
  }

  /** How a run can close: on its last answer, unless that failed or only led to more, or at the limit. */
  lemma ClosesExactly(texts: Texts, env: Env, maxIterations: nat, n: nat, content: string)
    ensures Closes(texts, env, maxIterations, n, content) <==>
      || (n > 0 && env.chat(n).Reply? && FinalOf(texts, env, env.chat(n).response, n) == Some(content))
      || (n > 0 && env.chat(n).ContextOverflow? && content == texts.cannotRecover)
      || (env.policy.None? && content == if n >= maxIterations then texts.limit(maxIterations) else "")
      || (env.policy.Some? && env.policy.value.again == Stop && env.policy.value.limitText == Some(content))
      || (env.policy.Some? && env.policy.value.again == Continue && content == "")
    ensures !env.chat(n).Reply? ==> OutcomeRound(texts, env, env.chat(n), n) == []
    ensures env.chat(n).Reply? ==>
              OutcomeRound(texts, env, env.chat(n), n) == ResponseRound(texts, env, env.chat(n).response, n)
  {
  }

  function OutcomeRound(texts: Texts, env: Env, outcome: ChatOutcome, iteration: nat): seq<Message> {
    if outcome.Reply? then ResponseRound(texts, env, outcome.response, iteration) else []
  }

  function Joint(rounds: seq<seq<Message>>): seq<Message> {
    if rounds == [] then [] else Joint(rounds[..|rounds| - 1]) + rounds[|rounds| - 1]
  }

  /** The rounds that the provider's answers call for, by iteration. */
  function RoundsOf(texts: Texts, env: Env): nat -> seq<Message> {
    (n: nat) => OutcomeRound(texts, env, env.chat(n), n)
  }

  /** The k-th round is what the k-th provider answer adds; an overflow adds nothing. */
  ghost predicate AreRounds(called: nat -> seq<Message>, rounds: seq<seq<Message>>) {
    forall k | 0 <= k < |rounds| :: rounds[k] == called(k + 1)
  }

  lemma JointExtends(rounds: seq<seq<Message>>, round: seq<Message>)
    ensures Joint(rounds + [round]) == Joint(rounds) + round
  {
    assert (rounds + [round])[..|rounds|] == rounds;
  }

  lemma OneMoreRound(called: nat -> seq<Message>, rounds: seq<seq<Message>>)
    requires AreRounds(called, rounds)
    ensures var round := called(|rounds| + 1);
      AreRounds(called, rounds + [round]) && Joint(rounds + [round]) == Joint(rounds) + round
  {
    JointExtends(rounds, called(|rounds| + 1));
  }

  /** Request k is the prompt followed by the rounds before it. */
  ghost predicate Asked(requests: seq<seq<Message>>, prompt: seq<Message>, rounds: seq<seq<Message>>) {
    && |requests| == |rounds|
    && forall k | 0 <= k < |requests| :: requests[k] == prompt + Joint(rounds[..k])
  }

  lemma AskedExtends(requests: seq<seq<Message>>, prompt: seq<Message>, rounds: seq<seq<Message>>, round: seq<Message>)
    requires Asked(requests, prompt, rounds)
    ensures Asked(requests + [prompt + Joint(rounds)], prompt, rounds + [round])
  {
    var more := rounds + [round];
    forall k | 0 <= k <= |requests| ensures more[..k] == rounds[..k] {
    }
    assert rounds[..|rounds|] == rounds;
  }

  /** The content of a run that was told to stop; None when the policy fails to say. */
  function LimitContent(texts: Texts, env: Env, maxIterations: nat, iteration: nat): Option<string> {
    match env.policy
    case None => Some(if iteration >= maxIterations then texts.limit(maxIterations) else "")
    case Some(policy) =>
      match policy.again
      case PolicyError => None
      case Continue => Some("")
      case Stop => policy.limitText
  }

  /** The content a turn can close with after n provider answers: its last answer's, or the one at the limit. */
  predicate Closes(texts: Texts, env: Env, maxIterations: nat, n: nat, content: string) {
    || (n > 0 && Ends(texts, env, env.chat(n), n, content))
    || LimitContent(texts, env, maxIterations, n) == Some(content)
  }

  /** What a run persists keeps its blocks whole. */
  predicate Lasting(flush: bool, emitted: seq<Message>) {
    flush ==> Spoken(emitted)
  }

  /** How a run can end on a provider answer: with a reply's content, or unable to recover from an overflow. */
  predicate Ends(texts: Texts, env: Env, outcome: ChatOutcome, iteration: nat, content: string) {
    match outcome
    case Reply(response) => FinalOf(texts, env, response, iteration) == Some(content)
    case ContextOverflow => content == texts.cannotRecover
    case ProviderError => false
  }

  lemma ReplyRoundJoins(emitted: seq<Message>, reply: Message)
    requires Rounds(emitted) && reply.role.Assistant? && reply.calls == None
    ensures Joined(emitted, [reply], [])
  {
    assert IsBlock([reply]);
    RoundJoins(emitted, [reply]);
    CallNamesOfRound(emitted, reply, []);
    assert [reply] + [] == [reply];
  }

  lemma NudgedRoundJoins(emitted: seq<Message>, reply: Message, nudge: Message)
    requires Rounds(emitted) && reply.role.Assistant? && reply.calls == None && nudge.role.User?
    ensures Joined(emitted, [reply, nudge], [])
  {
    assert IsNudgedReply([reply, nudge]);
    RoundJoins(emitted, [reply, nudge]);
    CallNamesOfRound(emitted, reply, [nudge]);
    assert [reply] + [nudge] == [reply, nudge];
  }

  lemma RecoveredViewIsComplete(log: seq<Message>, s: State, cachedTotal: Option<nat>, system: Option<Message>)
    requires Settled(log, s.summarizedThrough, cachedTotal) && Complete(log)
    requires system.Some? ==> system.value.role.System?
    ensures Complete(SystemFirst(system) + View(Shown(log, s)))
  {
    ShownNeedsNoRepair(log, s);
    ProjectedIsComplete(Shown(log, s));
    if system.Some? {
      PlainIsComplete(system.value);
      CompleteConcat([system.value], View(Shown(log, s)));
    } else {
      assert [] + View(Shown(log, s)) == View(Shown(log, s));
    }
  }

  lemma PreparedUserIsComplete(user: Message, now: string)
    requires user.role.User?
    ensures Complete(PrepareOne(user, Live, now))
  {
    PreparedIsLinkedAlike(user, Live, now);
    if PrepareOne(user, Live, now) != [] {
      PlainIsComplete(PrepareOne(user, Live, now)[0]);
    }
  }

  lemma IsolatedPromptIsComplete(system: Message, user: Message, budget: int)
    requires system.role.System? && user.role.User?
    ensures Complete(Compacted([system] + [] + [user], budget))
  {
    PlainIsComplete(system);
    PlainIsComplete(user);
    CompleteConcat([system], [user]);
    assert [system] + [] + [user] == [system] + [user];
    CompactionKeepsBlocks([system] + [] + [user], budget);
  }

  /** Mirroring whole rounds onto a complete log leaves it complete exactly when every message with calls has text. */
  lemma MirrorIsCompleteExactly(log0: seq<Message>, emitted: seq<Message>, now: nat -> string, tick: nat)
    requires Complete(log0) && Rounds(emitted)
    ensures Complete(log0 + Mirror(emitted, now, tick)) <==> Spoken(emitted)
  {
    RoundsAreComplete(emitted);
    LinksDecide(emitted, PersistedAll(emitted));
    assert Spoken(PersistedAll(emitted)) <==> Spoken(emitted) by {
      forall i | 0 <= i < |emitted|
        ensures TextOf(PersistedAll(emitted)[i]) == TextOf(emitted[i])
        ensures DeclaresCalls(PersistedAll(emitted)[i]) <==> DeclaresCalls(emitted[i])
      {
      }
    }
    LivePreparationKeepsBlocksExactly(PersistedAll(emitted), now, tick);
    if Spoken(emitted) {
      CompleteConcat(log0, Mirror(emitted, now, tick));
    } else if Complete(log0 + Mirror(emitted, now, tick)) {
      CompleteRemainder(log0, Mirror(emitted, now, tick));
    }
  }

  /** The answers so far are those of the first calls, in order. */
  ghost predicate AnswersFirst(texts: Texts, env: Env, iteration: nat, calls: seq<Request>, answers: seq<Message>) {
    && |answers| <= |calls|
    && forall j | 0 <= j < |answers| ::
         answers[j] == AnswerTo(texts, calls[j], env.preTool(iteration, j), env.decide(iteration, j), env.invoke(iteration, j))
  }

  method UsedNames(calls: seq<Request>) returns (names: seq<string>)
    ensures names == NamesOf(AsCalls(calls))
  {
    names := [];
    for j := 0 to |calls|
      invariant names == NamesOf(AsCalls(calls[..j]))
    {
      assert AsCalls(calls[..j + 1])[..j] == AsCalls(calls[..j]);
      names := names + [calls[j].name];
    }
    assert calls[..|calls|] == calls;
  }

  /** The emitted messages go on with whole rounds, which declare calls of the given names. */
  ghost predicate Joined(emitted: seq<Message>, round: seq<Message>, names: seq<string>) {
    && Rounds(emitted + round)
    && CallNames(emitted + round) == CallNames(emitted) + names
    && Complete(round)
  }

  lemma NothingJoins(emitted: seq<Message>)
    requires Rounds(emitted)
    ensures Joined(emitted, [], [])
  {
    assert emitted + [] == emitted;
  }

  lemma RoundJoins(emitted: seq<Message>, round: seq<Message>)
    requires Rounds(emitted) && IsRound(round)
    ensures Rounds(emitted + round) && Complete(round)
  {
    RoundsExtend(emitted, round);
    RoundIsComplete(round);
  }

  lemma CallRoundJoins(emitted: seq<Message>, texts: Texts, env: Env, iteration: nat, m: Message,
                       calls: seq<Request>, answers: seq<Message>)
    requires Rounds(emitted) && AnswersFirst(texts, env, iteration, calls, answers) && |answers| == |calls|
    requires m.role.Assistant? && m.calls == Some(AsCalls(calls)) && calls != []
    ensures Joined(emitted, [m] + answers, NamesOf(AsCalls(calls)))
  {
    CallRound(m, calls, answers);
    RoundJoins(emitted, [m] + answers);
    CallNamesOfRound(emitted, m, answers);
  }

  lemma CallRound(m: Message, calls: seq<Request>, answers: seq<Message>)
    requires m.role.Assistant? && m.calls == Some(AsCalls(calls)) && calls != []
    requires |answers| == |calls|
    requires forall j | 0 <= j < |calls| :: answers[j].role.Tool? && answers[j].toolCallId == Some(calls[j].id)
    ensures IsRound([m] + answers)
  {
    assert ([m] + answers)[1..] == answers;
  }

  lemma {:induction false} CallNamesOfRound(emitted: seq<Message>, m: Message, rest: seq<Message>)
    requires m.role.Assistant? && forall r | r in rest :: !r.role.Assistant?
    ensures CallNames(emitted + ([m] + rest)) == CallNames(emitted) + NamesOf(CallList(m))
  {
    var all := emitted + ([m] + rest);
    if rest == [] {
      assert all[..|all| - 1] == emitted;
    } else {
      var n := |rest| - 1;
      assert all[..|all| - 1] == emitted + ([m] + rest[..n]);
      CallNamesOfRound(emitted, m, rest[..n]);
    }
  }

  /** Only tool messages carry transport keys. */
  lemma NothingToStrip(m: Message)
    requires forall k | k in m.extra :: k == "reasoning_content" || k == "thinking_blocks"
    ensures Persisted(m) == m
  {
    assert "reasoning_content"[0] == 'r' && "thinking_blocks"[0] == 't';
    assert Persisted(m).extra == m.extra;
  }

  lemma MirrorExtends(emitted: seq<Message>, m: Message, now: nat -> string, tick: nat)
    ensures Mirror(emitted + [m], now, tick) == Mirror(emitted, now, tick) + PrepareOne(Persisted(m), Live, now(tick + |emitted|))
    ensures !LooksLikeMetadata(Persisted(m))
  {
    var all := PersistedAll(emitted + [m]);
    assert all[..|emitted|] == PersistedAll(emitted);
    assert HasPrefix("_type", "_") by { assert "_type"[..1] == "_"; }
  }
}
