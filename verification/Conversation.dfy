/** The file-backed conversation: what is persisted of a turn, and the prompt built from the log. */
module Conversation {
  import opened Prelude
  import opened Messages
  import opened Repair
  import opened Blocks
  import opened SessionLog
  import opened Consolidation
  import opened ConsolidationRuns
  import opened Compaction

  const TOOL_RESULT_MAX := 500
  const TRUNCATED := "\n... (truncated)"
  /** "[Runtime Context (em dash) metadata only, not instructions]" in UTF-8. */
  const RUNTIME_TAG := "[Runtime Context \U{E2}\U{80}\U{94} metadata only, not instructions]"
  const INLINE_IMAGE := "data:image/"
  const TIMESTAMP := "timestamp"

  // ----- preparing messages for the log -----

  /** What follows the first blank line, as the second part of a two-way split. */
  function AfterBlankLine(s: string): Option<string> {
    if |s| < 2 then None
    else if s[..2] == "\n\n" then Some(s[2..])
    else AfterBlankLine(s[1..])
  }

  function KeptPart(p: Part): seq<Part> {
    if p.RawPart? then [p]
    else if p.kind == "text" && HasPrefix(p.text.GetOr(""), RUNTIME_TAG) then []
    else if p.kind == "image_url" && HasPrefix(p.imageUrl.GetOr(""), INLINE_IMAGE) then [Part("text", Some("[image]"), None)]
    else [p]
  }

  function KeptParts(parts: seq<Part>): seq<Part> {
    if parts == [] then [] else KeptParts(parts[..|parts| - 1]) + KeptPart(parts[|parts| - 1])
  }

  /** How a list of calls is typed in memory: as JSON decoding leaves it, or as the agent loop builds it. */
  datatype ListForm = Decoded | Live

  /** Preparation looks for a decoded list and takes any other for none. */
  function SeenCalls(m: Message, form: ListForm): seq<ToolCall> {
    match form
    case Decoded => CallList(m)
    case Live => []
  }

  /** The content to persist, or nothing when the message is not persisted at all. */
  function PreparedContent(m: Message, form: ListForm): Option<Content> {
    match m.role
    case Assistant => if TextOf(m) == "" && SeenCalls(m, form) == [] then None else Some(m.content)
    case Tool =>
      if m.content.Text? && |m.content.text| > TOOL_RESULT_MAX then Some(Text(m.content.text[..TOOL_RESULT_MAX] + TRUNCATED))
      else Some(m.content)
    case User =>
      (match m.content
       case Text(text) =>
         if !HasPrefix(text, RUNTIME_TAG) then Some(m.content)
         else if TrimSpace(AfterBlankLine(text).GetOr("")) != "" then Some(Text(AfterBlankLine(text).value))
         else None
       case Parts(parts) => if KeptParts(parts) == [] then None else Some(Parts(KeptParts(parts)))
       case _ => Some(m.content))
    case _ => Some(m.content)
  }

  function Stamped(m: Message, now: string): Message {
    if TIMESTAMP in m.extra then m else m.(extra := m.extra[TIMESTAMP := now])
  }

  function PrepareOne(m: Message, form: ListForm, now: string): (r: seq<Message>)
    ensures |r| <= 1
  {
    match PreparedContent(m, form)
    case None => []
    case Some(content) => [Stamped(m.(content := content), now)]
  }

  function Preparer(form: ListForm, clock: nat -> string): (nat, Message) -> seq<Message> {
    (i: nat, m: Message) => PrepareOne(m, form, clock(i))
  }

  /** The i-th message of a batch is stamped with the i-th reading of the clock. */
  function Prepared(messages: seq<Message>, form: ListForm, clock: nat -> string): seq<Message> {
    Rewrite(messages, Preparer(form, clock), 0)
  }

  method FilterParts(parts: seq<Part>) returns (filtered: seq<Part>)
    ensures filtered == KeptParts(parts)
  {
    filtered := [];
    for j := 0 to |parts|
      invariant filtered == KeptParts(parts[..j])
    {
      assert parts[..j + 1][..j] == parts[..j];
      filtered := filtered + KeptPart(parts[j]);
    }
    assert parts[..|parts|] == parts;
  }

  method PrepareTurn(messages: seq<Message>, form: ListForm, clock: nat -> string) returns (prepared: seq<Message>)
    ensures prepared == Prepared(messages, form, clock)
  {
    prepared := [];
    for i := 0 to |messages|
      invariant prepared == Prepared(messages[..i], form, clock)
    {
      var entry := messages[i];
      assert messages[..i + 1][..i] == messages[..i];
      match entry.role {
        case Assistant =>
          if TextOf(entry) == "" && |SeenCalls(entry, form)| == 0 {
            continue;
          }
        case Tool =>
          if entry.content.Text? && |entry.content.text| > TOOL_RESULT_MAX {
            entry := entry.(content := Text(entry.content.text[..TOOL_RESULT_MAX] + TRUNCATED));
          }
        case User =>
          match entry.content {
            case Text(text) =>
              if HasPrefix(text, RUNTIME_TAG) {
                var rest := AfterBlankLine(text);
                if rest.Some? && TrimSpace(rest.value) != "" {
                  entry := entry.(content := Text(rest.value));
                } else {
                  assert TrimSpace("") == "";
                  continue;
                }
              }
            case Parts(parts) =>
              var filtered := FilterParts(parts);
              if filtered == [] {
                continue;
              }
              entry := entry.(content := Parts(filtered));
            case _ =>
          }
        case _ =>
      }
      prepared := prepared + [Stamped(entry, clock(i))];
    }
    assert messages[..|messages|] == messages;
  }

  // ----- what is persisted -----

  predicate BlankLineAt(s: string, k: int) {
    0 <= k <= |s| - 2 && s[k] == '\n' && s[k + 1] == '\n'
  }

  /** The split is at the first blank line. */
  lemma {:induction false} SplitsAtFirstBlankLine(s: string) returns (k: nat)
    ensures AfterBlankLine(s).Some? <==> exists j :: BlankLineAt(s, j)
    ensures AfterBlankLine(s).Some? ==>
              BlankLineAt(s, k) && AfterBlankLine(s) == Some(s[k + 2..]) && forall j | j < k :: !BlankLineAt(s, j)
  {
    k := 0;
    if |s| >= 2 {
      assert s[..2] == [s[0], s[1]];
      if s[..2] == "\n\n" {
        assert BlankLineAt(s, 0);
      } else {
        assert !BlankLineAt(s, 0);
        k := SplitsAtFirstBlankLine(s[1..]);
        k := k + 1;
        assert forall j | j > 0 :: BlankLineAt(s, j) <==> BlankLineAt(s[1..], j - 1);
        if j :| BlankLineAt(s, j) {
          assert BlankLineAt(s[1..], j - 1);
        }
        if AfterBlankLine(s).Some? {
          assert BlankLineAt(s, k);
        }
      }
    }
  }

  /** Text parts with the runtime tag go, and inline images become a placeholder; the rest stays as it is. */
  lemma PartKeptExactly(p: Part)
    ensures KeptPart(p) == [] <==> p.Part? && p.kind == "text" && p.text.Some? && RUNTIME_TAG <= p.text.value
    ensures KeptPart(p) != [] ==>
            KeptPart(p) == [if p.Part? && p.kind == "image_url" && p.imageUrl.Some? && "data:image/" <= p.imageUrl.value
                            then Part("text", Some("[image]"), None) else p]
  {
  }

  lemma {:induction false} PartsKeptInOrder(parts: seq<Part>) returns (at: seq<nat>)
    ensures Increasing(at, |parts|) && |KeptParts(parts)| == |at|
    ensures forall i | 0 <= i < |parts| :: i in at <==> KeptPart(parts[i]) != []
    ensures forall k | 0 <= k < |at| :: KeptPart(parts[at[k]]) == [KeptParts(parts)[k]]
  {
    at := [];
    if parts != [] {
      var n := |parts| - 1;
      var before := PartsKeptInOrder(parts[..n]);
      var kept, last := KeptParts(parts[..n]), KeptPart(parts[n]);
      at := before + if last != [] then [n] else [];
      assert KeptParts(parts) == kept + last;
      forall k | 0 <= k < |at| ensures KeptPart(parts[at[k]]) == [KeptParts(parts)[k]] {
        if k < |before| {
          assert parts[..n][before[k]] == parts[before[k]];
        }
      }
    }
  }

  /** What of a message is persisted, role by role; a persisted message keeps its links and its first time stamp. */
  lemma PersistedExactly(m: Message, form: ListForm, now: string)
    ensures var r := PrepareOne(m, form, now);
      && (r != [] ==> r == [m.(content := r[0].content, extra := if "timestamp" in m.extra then m.extra
                                                                 else m.extra["timestamp" := now])])
      && (m.role == Assistant ==>
            (r == [] <==> !(m.content.Text? && m.content.text != "") && (form == Live || m.calls.GetOr([]) == [])))
      && (m.role.Tool? || m.role.System? || m.role.OtherRole? ==> r != [])
      && (r != [] && !m.role.User? && !m.role.Tool? ==> r[0].content == m.content)
      && (m.role.Tool? ==>
            r[0].content == if m.content.Text? && |m.content.text| > 500
                            then Text(m.content.text[..500] + "\n... (truncated)") else m.content)
  {
  }

  /** Of a user text that starts with the runtime tag only what follows the first blank line is persisted, unless that is blank. */
  lemma UserTextPersistedExactly(m: Message, form: ListForm, now: string) returns (k: nat)
    requires m.role.User? && m.content.Text?
    ensures var text, r := m.content.text, PrepareOne(m, form, now);
      if !(RUNTIME_TAG <= text) then r != [] && r[0].content == m.content
      else if exists j :: BlankLineAt(text, j) then
        && BlankLineAt(text, k) && (forall j | j < k :: !BlankLineAt(text, j))
        && (r != [] <==> TrimSpace(text[k + 2..]) != "")
        && (r != [] ==> r[0].content == Text(text[k + 2..]))
      else r == []
  {
    k := SplitsAtFirstBlankLine(m.content.text);
    assert TrimSpace("") == "";
  }

  /** A user message of parts is persisted with the kept ones, unless there are none; other contents are kept. */
  lemma UserPartsPersistedExactly(m: Message, form: ListForm, now: string)
    requires m.role.User? && !m.content.Text?
    ensures var r := PrepareOne(m, form, now);
      if m.content.Parts? then
        (r != [] <==> KeptParts(m.content.parts) != []) && (r != [] ==> r[0].content == Parts(KeptParts(m.content.parts)))
      else r != [] && r[0].content == m.content
  {
  }

  /** A batch is persisted message by message, in order, each with its own reading of the clock. */
  lemma {:induction false} BatchPersistedExactly(messages: seq<Message>, form: ListForm, clock: nat -> string)
    returns (at: seq<nat>)
    ensures Increasing(at, |messages|) && |Prepared(messages, form, clock)| == |at|
    ensures forall i | 0 <= i < |messages| :: i in at <==> PrepareOne(messages[i], form, clock(i)) != []
    ensures forall k | 0 <= k < |at| ::
              PrepareOne(messages[at[k]], form, clock(at[k])) == [Prepared(messages, form, clock)[k]]
  {
    at := [];
    if messages != [] {
      var n := |messages| - 1;
      at := BatchPersistedExactly(messages[..n], form, clock);
      if PrepareOne(messages[n], form, clock(n)) != [] {
        at := at + [n];
      }
    }
  }

  // ----- what preparation keeps -----

  lemma PreparedIsLinkedAlike(m: Message, form: ListForm, now: string)
    ensures PrepareOne(m, form, now) != [] ==>
      var r := PrepareOne(m, form, now)[0];
      && LinkedAlike(r, m)
      && (LooksLikeMetadata(r) <==> LooksLikeMetadata(m))
    ensures m.role.Tool? || (DeclaresCalls(m) && (form.Decoded? || TextOf(m) != "")) ==> PrepareOne(m, form, now) != []
  {
  }

  lemma PreparerKeepsLinks(clock: nat -> string)
    ensures KeepsLinks(Preparer(Decoded, clock))
  {
    var f := Preparer(Decoded, clock);
    forall i: nat, m: Message
      ensures |f(i, m)| <= 1
      ensures f(i, m) != [] ==> LinkedAlike(f(i, m)[0], m)
      ensures m.role.Tool? || DeclaresCalls(m) ==> f(i, m) != []
    {
      PreparedIsLinkedAlike(m, Decoded, clock(i));
    }
  }

  /** Whatever preparation cuts or drops, whole blocks stay whole when their lists are decoded. */
  lemma PreparationKeepsBlocks(messages: seq<Message>, clock: nat -> string, tick: nat)
    requires Complete(messages)
    ensures Complete(Rewrite(messages, Preparer(Decoded, clock), tick))
  {
    PreparerKeepsLinks(clock);
    RewriteKeepsBlocks(messages, Preparer(Decoded, clock), tick);
  }

  /** Every message that declares calls also says something. */
  predicate Spoken(messages: seq<Message>) {
    forall i | 0 <= i < |messages| && DeclaresCalls(messages[i]) :: TextOf(messages[i]) != ""
  }

  /** On such messages the form of the lists does not matter. */
  lemma {:induction false} SpokenLikeDecoded(messages: seq<Message>, clock: nat -> string, tick: nat)
    requires Spoken(messages)
    ensures Rewrite(messages, Preparer(Live, clock), tick) == Rewrite(messages, Preparer(Decoded, clock), tick)
  {
    if messages != [] {
      var n := |messages| - 1;
      SpokenLikeDecoded(messages[..n], clock, tick);
      assert DeclaresCalls(messages[n]) ==> TextOf(messages[n]) != "";
      assert Preparer(Live, clock)(tick + n, messages[n]) == PrepareOne(messages[n], Live, clock(tick + n));
      assert Preparer(Decoded, clock)(tick + n, messages[n]) == PrepareOne(messages[n], Decoded, clock(tick + n));
    }
  }

  lemma SilentHeadIsDropped(head: Message, answers: seq<Message>, clock: nat -> string, tick: nat)
    requires IsBlock([head] + answers) && DeclaresCalls(head) && TextOf(head) == ""
    ensures var kept := Rewrite([head] + answers, Preparer(Live, clock), tick); kept != [] && kept[0].role.Tool?
  {
    var f := Preparer(Live, clock);
    assert ([head] + answers)[1..] == answers && |answers| > 0 && answers[0].role.Tool?;
    RewriteHeaded(head, answers, f, tick);
    assert f(tick, head) == PrepareOne(head, Live, clock(tick)) == [];
    var first, more := answers[0], answers[1..];
    assert answers == [first] + more;
    RewriteHeaded(first, more, f, tick + 1);
    PreparedIsLinkedAlike(first, Live, clock(tick + 1));
    assert f(tick + 1, first) == PrepareOne(first, Live, clock(tick + 1));
  }

  lemma StartsWithAnswer(messages: seq<Message>)
    requires messages != [] && messages[0].role.Tool?
    ensures !Complete(messages)
  {
    var n := BlockLength(messages[0]);
    if n <= |messages| {
      assert messages[..n][0] == messages[0];
    }
  }

  lemma SpokenParts(a: seq<Message>, b: seq<Message>)
    ensures Spoken(a + b) <==> Spoken(a) && Spoken(b)
  {
    if Spoken(a + b) {
      forall i | 0 <= i < |a| && DeclaresCalls(a[i]) ensures TextOf(a[i]) != "" {
        assert (a + b)[i] == a[i];
      }
      forall i | 0 <= i < |b| && DeclaresCalls(b[i]) ensures TextOf(b[i]) != "" {
        assert (a + b)[|a| + i] == b[i];
      }
    }
  }

  /** Only the head of a block declares calls. */
  lemma SpokenBlock(block: seq<Message>)
    requires IsBlock(block)
    ensures Spoken(block) <==> !DeclaresCalls(block[0]) || TextOf(block[0]) != ""
  {
    forall i | 0 < i < |block| ensures !DeclaresCalls(block[i]) {
      assert block[1..][i - 1] == block[i];
    }
  }

  lemma SilentBlockBreaks(block: seq<Message>, rest: seq<Message>, clock: nat -> string, tick: nat)
    requires IsBlock(block) && !Spoken(block)
    ensures !Complete(Rewrite(block + rest, Preparer(Live, clock), tick))
  {
    SpokenBlock(block);
    assert block == [block[0]] + block[1..];
    SilentHeadIsDropped(block[0], block[1..], clock, tick);
    RewriteConcat(block, rest, Preparer(Live, clock), tick);
    StartsWithAnswer(Rewrite(block + rest, Preparer(Live, clock), tick));
  }

  lemma SilentRestBreaks(block: seq<Message>, rest: seq<Message>, clock: nat -> string, tick: nat)
    requires IsBlock(block) && Spoken(block) && !Complete(Rewrite(rest, Preparer(Live, clock), tick + |block|))
    ensures !Complete(Rewrite(block + rest, Preparer(Live, clock), tick))
  {
    var kept, more := Rewrite(block, Preparer(Live, clock), tick), Rewrite(rest, Preparer(Live, clock), tick + |block|);
    SpokenLikeDecoded(block, clock, tick);
    BlockIsComplete(block);
    PreparationKeepsBlocks(block, clock, tick);
    RewriteConcat(block, rest, Preparer(Live, clock), tick);
    if Complete(kept + more) {
      CompleteRemainder(kept, more);
    }
  }

  lemma FirstBlock(messages: seq<Message>) returns (block: seq<Message>, rest: seq<Message>)
    requires Complete(messages) && messages != []
    ensures IsBlock(block) && Complete(rest) && messages == block + rest && |rest| < |messages|
  {
    var n := BlockLength(messages[0]);
    block, rest := messages[..n], messages[n..];
  }

  lemma {:induction false} SilentCallsBreak(messages: seq<Message>, clock: nat -> string, tick: nat)
    requires Complete(messages) && !Spoken(messages)
    ensures !Complete(Rewrite(messages, Preparer(Live, clock), tick))
    decreases |messages|
  {
    var block, rest := FirstBlock(messages);
    SpokenParts(block, rest);
    if Spoken(block) {
      SilentCallsBreak(rest, clock, tick + |block|);
      SilentRestBreaks(block, rest, clock, tick);
    } else {
      SilentBlockBreaks(block, rest, clock, tick);
    }
  }

  /** As the loop writes them, whole blocks stay whole exactly when every message with calls also has text: without it
      the message is dropped and its answers are kept. */
  lemma LivePreparationKeepsBlocksExactly(messages: seq<Message>, clock: nat -> string, tick: nat)
    requires Complete(messages)
    ensures Complete(Rewrite(messages, Preparer(Live, clock), tick)) <==> Spoken(messages)
  {
    if Spoken(messages) {
      SpokenLikeDecoded(messages, clock, tick);
      PreparationKeepsBlocks(messages, clock, tick);
    } else {
      SilentCallsBreak(messages, clock, tick);
    }
  }

  function Untimed(m: Message): Message {
    m.(extra := m.extra - {TIMESTAMP})
  }

  function UntimedAll(messages: seq<Message>): seq<Message> {
    if messages == [] then [] else UntimedAll(messages[..|messages| - 1]) + [Untimed(messages[|messages| - 1])]
  }

  /** One batch or message by message, at whatever times: the log is the same up to timestamps. */
  lemma {:induction false} TimesDoNotMatter(messages: seq<Message>, form: ListForm, batch: nat -> string, single: nat -> string)
    ensures UntimedAll(Prepared(messages, form, batch)) == UntimedAll(Prepared(messages, form, single))
    ensures |Prepared(messages, form, batch)| == |Prepared(messages, form, single)|
  {
    if messages != [] {
      var n := |messages| - 1;
      TimesDoNotMatter(messages[..n], form, batch, single);
      UntimedConcat(Prepared(messages[..n], form, batch), PrepareOne(messages[n], form, batch(n)));
      UntimedConcat(Prepared(messages[..n], form, single), PrepareOne(messages[n], form, single(n)));
      UntimedOne(messages[n], form, batch(n), single(n));
    }
  }

  lemma UntimedOne(m: Message, form: ListForm, a: string, b: string)
    ensures UntimedAll(PrepareOne(m, form, a)) == UntimedAll(PrepareOne(m, form, b))
  {
    if PreparedContent(m, form).Some? {
      var x, y := PrepareOne(m, form, a)[0], PrepareOne(m, form, b)[0];
      assert x.extra - {TIMESTAMP} == y.extra - {TIMESTAMP};
      assert [x][..0] == [] && [y][..0] == [];
    }
  }

  lemma {:induction false} UntimedConcat(a: seq<Message>, b: seq<Message>)
    ensures UntimedAll(a + b) == UntimedAll(a) + UntimedAll(b)
  {
    if b == [] {
      assert a + b == a;
    } else {
      UntimedConcat(a, b[..|b| - 1]);
      assert (a + b)[..|a + b| - 1] == a + b[..|b| - 1];
    }
  }

  // ----- the conversation -----

  /** Settled positions: the sidecar pointer and the cached count both lie between blocks. */
  ghost predicate Settled(log: seq<Message>, pointer: nat, cachedTotal: Option<nat>) {
    && pointer <= |log| && Complete(log[..pointer])
    && (cachedTotal.Some? ==> cachedTotal.value <= |log| && Complete(log[..cachedTotal.value]))
  }

  class DefaultConversation {
    const policy: SummarizingPolicy
    const file: SessionFile
    const promptBudget: int
    ghost var log: seq<Message>

    ghost predicate Valid()
      reads this, file
    {
      Serves(file, log)
    }

    ghost predicate IsSettled()
      reads this, file, policy
    {
      Settled(log, policy.Stored().summarizedThrough, file.cachedTotal)
    }

    /** What the reader reports as the number of messages. */
    ghost function CountNow(): nat
      reads this, file
    {
      if file.cachedTotal.Some? then file.cachedTotal.value else |log|
    }

    constructor (memoryWindow: int, promptBudget: int)
      ensures Valid() && IsSettled() && log == [] && fresh(policy) && fresh(file)
      ensures this.promptBudget == promptBudget
    {
      policy := new SummarizingPolicy(memoryWindow);
      file := new SessionFile();
      this.promptBudget := promptBudget;
      log := [];
    }

    /** Persists one message as it is produced; `stored` tells whether the write succeeds. */
    method Append(m: Message, form: ListForm, now: string, stored: bool) returns (ok: bool)
      requires Valid() && !LooksLikeMetadata(m)
      modifies this`log, file
      ensures Valid()
      ensures log == old(log) + (if stored then PrepareOne(m, form, now) else [])
      ensures ok <==> stored || PrepareOne(m, form, now) == []
      ensures file.cachedTotal == if old(file.cachedTotal).Some? then old(file.cachedTotal) else Some(|old(log)|)
    {
      CacheSession();
      var clock: nat -> string := _ => now;
      var prepared := PrepareTurn([m], form, clock);
      RewriteOne(m, Preparer(form, clock), 0);
      if prepared == [] {
        return true;
      }
      if !stored {
        return false;
      }
      PreparedIsLinkedAlike(m, form, now);
      Store(prepared);
      ok := true;
    }

    method CacheSession()
      requires Valid()
      modifies file`cachedTotal
      ensures Valid()
      ensures file.cachedTotal == if old(file.cachedTotal).Some? then old(file.cachedTotal) else Some(|log|)
    {
      ServedCount(file, log);
      file.GetOrCreate();
    }

    method Store(prepared: seq<Message>)
      requires Valid() && NoMetadata(prepared)
      modifies this`log, file`lines
      ensures Valid() && log == old(log) + prepared
    {
      file.SaveAppend(prepared);
      AppendExtends(old(file.lines), file.lines.value, log, prepared);
      log := log + prepared;
    }

    /** The batch path for conversations that are not appended to message by message. */
    method Record(messages: seq<Message>, form: ListForm, clock: nat -> string, stored: bool) returns (ok: bool)
      requires Valid() && NoMetadata(messages)
      modifies this`log, file
      ensures Valid() && ok == stored
      ensures log == old(log) + (if stored then Prepared(messages, form, clock) else [])
      ensures file.cachedTotal == if old(file.cachedTotal).Some? then old(file.cachedTotal) else Some(|old(log)|)
    {
      CacheSession();
      var prepared := PrepareTurn(messages, form, clock);
      PreparedIsRegular(messages, form, clock);
      if stored {
        Store(prepared);
      }
      ok := stored;
    }

    /** The history part of the prompt: the policy's view of the log, repaired and projected. */
    method History() returns (history: seq<Message>)
      requires Valid()
      ensures |log| <= TAIL ==> history == View(Shown(log, policy.Stored()))
    {
      var view := policy.Transform(file, log);
      history := RepairAndProject(view);
    }

    /** System prompt, history and the new user message, compacted to the prompt budget. */
    method BuildPrompt(system: Message, user: Message, isolated: bool) returns (messages: seq<Message>)
      requires Valid() && system.role.System? && user.role.User?
      ensures messages != [] && messages[|messages| - 1] == user
      ensures |log| <= TAIL ==>
        messages == Compacted([system] + (if isolated then [] else View(Shown(log, policy.Stored()))) + [user], promptBudget)
    {
      var history := HistoryUnless(isolated);
      messages := CompactToolResults([system] + history + [user], promptBudget);
      LastUserIsSpared([system] + history, user, promptBudget);
    }

    method HistoryUnless(isolated: bool) returns (history: seq<Message>)
      requires Valid()
      ensures |log| <= TAIL ==> history == if isolated then [] else View(Shown(log, policy.Stored()))
    {
      history := [];
      if !isolated {
        history := History();
      }
    }

    /** One recovery pass, then the new view behind the system prompt; None when the pointer did not move. */
    method RecoverFromOverflow(system: Option<Message>, entry: Option<string>, saved: bool)
      returns (recovered: Option<seq<Message>>, ok: bool)
      requires Valid()
      modifies policy`sidecar
      ensures CountNow() <= |log|
      ensures policy.Stored() == Recovered(policy.window, log, CountNow(), old(policy.Stored()), entry, saved)
      ensures ok <==> saved || !Pass(policy.window, log, CountNow(), old(policy.Stored()), entry).advanced
      ensures recovered.Some? <==> saved && Pass(policy.window, log, CountNow(), old(policy.Stored()), entry).advanced
      ensures recovered.Some? && |log| <= TAIL ==>
                recovered.value == (if system.Some? then [system.value] else []) + View(Shown(log, policy.Stored()))
    {
      var advanced;
      ghost var total;
      advanced, ok, total := policy.RecoverFromOverflow(file, log, entry, saved);
      if !ok || !advanced {
        return None, ok;
      }
      var view := History();
      recovered := Some(SystemFirst(system) + view);
    }

    /** End of turn: one maintenance pass, skipped on hook turns. */
    method PostTurn(hook: bool, entry: Option<string>, saved: bool)
      requires Valid()
      modifies policy`sidecar
      ensures CountNow() <= |log|
      ensures policy.Stored() == if hook then old(policy.Stored())
                                 else Maintained(policy.window, log, CountNow(), old(policy.Stored()), entry, saved)
    {
      if !hook {
        var ok;
        ghost var total;
        ok, total := policy.OnTurnComplete(file, log, entry, saved);
      }
    }

    /** Back to an empty log and no sidecar; a failed rewrite leaves the file and only empties the cached session. */
    method Clear(stored: bool) returns (ok: bool)
      requires Valid()
      modifies this`log, file, policy`sidecar
      ensures Valid() && ok == stored
      ensures stored ==> log == [] && IsSettled()
      ensures !stored ==> log == old(log) && policy.Stored() == old(policy.Stored())
    {
      file.GetOrCreate();
      if !stored {
        file.cachedTotal := Some(0);
        return false;
      }
      file.Clear();
      policy.DeleteState();
      log := [];
      assert [MetadataLine] + EncodeAll([]) == [MetadataLine];
      ok := true;
    }
  }

  function SystemFirst(system: Option<Message>): seq<Message> {
    if system.Some? then [system.value] else []
  }

  lemma {:induction false} PreparedIsRegular(messages: seq<Message>, form: ListForm, clock: nat -> string)
    requires NoMetadata(messages)
    ensures NoMetadata(Prepared(messages, form, clock))
  {
    if messages != [] {
      var n := |messages| - 1;
      PreparedIsRegular(messages[..n], form, clock);
      PreparedIsLinkedAlike(messages[n], form, clock(n));
    }
  }

  lemma LastUserIsSpared(front: seq<Message>, user: Message, budget: int)
    requires user.role.User?
    ensures |Compacted(front + [user], budget)| == |front| + 1
    ensures Compacted(front + [user], budget)[|front|] == user
  {
    var all := front + [user];
    ClearingChangesNothingElse(all, Protected(all), budget, COMPACTION_MARKER);
    var recent := LastFour(NonSystemIndices(all, |all|));
    assert recent[|recent| - 1] == |front|;
    CompactionIsStable(all, budget, COMPACTION_MARKER);
  }

  // ----- the invariant every operation keeps -----

  /** Appending keeps positions settled, provided the count was cached before or is cached between blocks now. */
  lemma AppendingStaysSettled(log: seq<Message>, more: seq<Message>, pointer: nat, before: Option<nat>, after: Option<nat>)
    requires Settled(log, pointer, before)
    requires after == (if before.Some? then before else Some(|log|))
    requires before.Some? || Complete(log)
    ensures Settled(log + more, pointer, after)
  {
    assert (log + more)[..pointer] == log[..pointer];
    assert (log + more)[..after.value] == log[..after.value];
    assert log[..|log|] == log;
  }

  /** A pass on a settled, complete log leaves it settled, whichever of the two counts it used. */
  lemma PassStaysSettled(window: nat, log: seq<Message>, s: State, cachedTotal: Option<nat>, total: nat, entry: Option<string>)
    requires Settled(log, s.summarizedThrough, cachedTotal) && Complete(log)
    requires total == (if cachedTotal.Some? then cachedTotal.value else |log|)
    ensures total <= |log| && Settled(log, Pass(window, log, total, s, entry).state.summarizedThrough, cachedTotal)
  {
    assert log[..|log|] == log;
    PassKeepsBlocks(window, log, total, s, entry);
  }

  lemma ViewShowsSummary(log: seq<Message>, s: State)
    requires s.summary != ""
    ensures View(Shown(log, s)) != []
    ensures View(Shown(log, s))[0] ==
            Message(System, Text("## Previous Session Summary\n" + s.summary), None, None, None, map[])
  {
    SummaryIsShown(log, s);
    LeadingSystemStays(Shown(log, s));
  }

  lemma CompactionKeepsEnds(system: Message, view: seq<Message>, user: Message, budget: int)
    requires view != [] && view[0].role.System? && system.role.System? && user.role.User?
    ensures var prompt := Compacted([system] + view + [user], budget);
      |prompt| == |view| + 2 && prompt[0] == system && prompt[1] == view[0] && prompt[|view| + 1] == user
  {
    var all := [system] + view + [user];
    OnlyAnswersAreCleared(all, budget, 0);
    OnlyAnswersAreCleared(all, budget, 1);
    OnlyAnswersAreCleared(all, budget, |view| + 1);
  }

  /** The prompt starts with the system message and the summary, and ends with the user message. */
  lemma PromptShowsSummary(log: seq<Message>, s: State, system: Message, user: Message, budget: int)
    requires s.summary != "" && system.role.System? && user.role.User?
    ensures var prompt := Compacted([system] + View(Shown(log, s)) + [user], budget);
      && |prompt| >= 3 && prompt[0] == system && prompt[|prompt| - 1] == user
      && prompt[1] == Message(System, Text("## Previous Session Summary\n" + s.summary), None, None, None, map[])
  {
    ViewShowsSummary(log, s);
    CompactionKeepsEnds(system, View(Shown(log, s)), user, budget);
  }

  /** From a settled, complete log every prompt is complete and holds the whole projected view. */
  lemma PromptIsComplete(log: seq<Message>, s: State, cachedTotal: Option<nat>, system: Message, user: Message, budget: int)
    requires Settled(log, s.summarizedThrough, cachedTotal) && Complete(log)
    requires system.role.System? && user.role.User?
    ensures View(Shown(log, s)) == ProjectAll(Shown(log, s))
    ensures var prompt := Compacted([system] + View(Shown(log, s)) + [user], budget); Complete(prompt) && Paired(prompt)
  {
    var shown := Shown(log, s);
    ShownNeedsNoRepair(log, s);
    ProjectedIsComplete(shown);
    PlainIsComplete(system);
    PlainIsComplete(user);
    CompleteConcat([system], View(shown));
    CompleteConcat([system] + View(shown), [user]);
    CompactionKeepsBlocks([system] + View(shown) + [user], budget);
  }

  lemma ProjectedIsComplete(messages: seq<Message>)
    requires Complete(messages)
    ensures Complete(ProjectAll(messages))
  {
    LinksDecide(messages, ProjectAll(messages));
  }
}
