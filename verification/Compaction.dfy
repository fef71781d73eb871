/** Token estimation, budgeted clearing of tool results and the recovery-time rewriting of a prompt. */
module Compaction {
  import opened Prelude
  import opened Messages
  import opened Repair
  import opened Blocks

  const BYTES_PER_TOKEN := 3
  const CLEARABLE_BYTES := 100
  /** "[compacted (em dash) tool output removed to free context]" in UTF-8. */
  const COMPACTION_MARKER := "[compacted \U{E2}\U{80}\U{94} tool output removed to free context]"
  const HARD_CLEAR_MARKER := "[Old tool result content cleared]"
  const SUMMARY_PREFIX := "Summary of prior conversation (older messages were summarized to free context):\n\n"

  // ----- estimation -----

  function PartsSize(parts: seq<Part>): nat {
    if parts == [] then 0
    else
      var last := parts[|parts| - 1];
      PartsSize(parts[..|parts| - 1]) + (if last.Part? && last.text.Some? then |last.text.value| else 0)
  }

  function CallsSize(calls: seq<ToolCall>): nat {
    if calls == [] then 0
    else
      var last := calls[|calls| - 1];
      CallsSize(calls[..|calls| - 1]) + (if last.ToolCall? && last.arguments.Some? then |last.arguments.value| else 0)
  }

  function ContentSize(content: Content): nat {
    match content
    case Text(text) => |text|
    case Parts(parts) => PartsSize(parts)
    case _ => 0
  }

  function Size(m: Message): nat {
    ContentSize(m.content) + CallsSize(CallList(m))
  }

  function TotalSize(messages: seq<Message>): nat {
    if messages == [] then 0 else TotalSize(messages[..|messages| - 1]) + Size(messages[|messages| - 1])
  }

  function Estimate(messages: seq<Message>): nat {
    TotalSize(messages) / BYTES_PER_TOKEN
  }

  method SizeOf(m: Message) returns (size: nat)
    ensures size == Size(m)
  {
    size := 0;
    match m.content {
      case Text(text) => size := |text|;
      case Parts(parts) =>
        for j := 0 to |parts|
          invariant size == PartsSize(parts[..j])
        {
          assert parts[..j + 1][..j] == parts[..j];
          if parts[j].Part? && parts[j].text.Some? {
            size := size + |parts[j].text.value|;
          }
        }
        assert parts[..|parts|] == parts;
      case _ =>
    }
    var calls := CallList(m);
    for j := 0 to |calls|
      invariant size == ContentSize(m.content) + CallsSize(calls[..j])
    {
      assert calls[..j + 1][..j] == calls[..j];
      if calls[j].ToolCall? && calls[j].arguments.Some? {
        size := size + |calls[j].arguments.value|;
      }
    }
    assert calls[..|calls|] == calls;
  }

  method EstimateTokens(messages: seq<Message>) returns (tokens: nat)
    ensures tokens == Estimate(messages)
  {
    var total := 0;
    for i := 0 to |messages|
      invariant total == TotalSize(messages[..i])
    {
      assert messages[..i + 1][..i] == messages[..i];
      var size := SizeOf(messages[i]);
      total := total + size;
    }
    assert messages[..|messages|] == messages;
    tokens := total / BYTES_PER_TOKEN;
  }

  lemma {:induction false} SizeAfterUpdate(messages: seq<Message>, i: nat, m: Message)
    requires i < |messages|
    ensures TotalSize(messages[i := m]) == TotalSize(messages) - Size(messages[i]) + Size(m)
  {
    var last := |messages| - 1;
    if i < last {
      SizeAfterUpdate(messages[..last], i, m);
      assert messages[i := m][..last] == messages[..last][i := m];
    } else {
      assert messages[i := m][..last] == messages[..last];
    }
  }

  lemma {:induction false} SizeOfPrefix(messages: seq<Message>, k: nat)
    requires k <= |messages|
    ensures TotalSize(messages[..k]) <= TotalSize(messages)
  {
    if k == |messages| {
      assert messages[..k] == messages;
    } else {
      SizeOfPrefix(messages[..|messages| - 1], k);
      assert messages[..|messages| - 1][..k] == messages[..k];
    }
  }

  // ----- what is counted -----

  /** A message counts its text, or the texts of its parts, and the argument texts of its calls; messages add up. */
  lemma SizeSaysExactly(m: Message)
    ensures m.content.Text? ==> Size(m) == |m.content.text| + if m.calls.Some? then CallsSize(m.calls.value) else 0
    ensures m.content.Parts? ==> Size(m) == PartsSize(m.content.parts) + if m.calls.Some? then CallsSize(m.calls.value) else 0
    ensures m.content.NoContent? || m.content.OtherContent? ==> Size(m) == if m.calls.Some? then CallsSize(m.calls.value) else 0
    ensures TotalSize([m]) == Size(m) && Estimate([m]) == Size(m) / 3
  {
    assert [m][..0] == [];
  }

  lemma {:induction false} SizesAddUp(a: seq<Message>, b: seq<Message>)
    ensures TotalSize(a + b) == TotalSize(a) + TotalSize(b)
    ensures Estimate(a) == TotalSize(a) / 3
  {
    if b == [] {
      assert a + b == a;
    } else {
      SizesAddUp(a, b[..|b| - 1]);
      assert (a + b)[..|a + b| - 1] == a + b[..|b| - 1];
    }
  }

  lemma CallSizesAddUp(calls: seq<ToolCall>, c: ToolCall)
    ensures CallsSize([]) == 0
    ensures CallsSize(calls + [c]) == CallsSize(calls) + if c.ToolCall? && c.arguments.Some? then |c.arguments.value| else 0
  {
    assert (calls + [c])[..|calls|] == calls;
  }

  lemma PartSizesAddUp(parts: seq<Part>, p: Part)
    ensures PartsSize([]) == 0
    ensures PartsSize(parts + [p]) == PartsSize(parts) + if p.Part? && p.text.Some? then |p.text.value| else 0
  {
    assert (parts + [p])[..|parts|] == parts;
  }

  // ----- clearing oldest first -----

  predicate Clearable(m: Message, placeholder: string) {
    && m.role.Tool? && m.content.Text?
    && m.content.text != placeholder && m.content.text != COMPACTION_MARKER
    && |m.content.text| > CLEARABLE_BYTES
  }

  /** The positions below n that may be cleared, oldest first. */
  function Eligible(messages: seq<Message>, spared: set<nat>, placeholder: string, n: nat): (r: seq<nat>)
    requires n <= |messages|
    ensures forall k | 0 <= k < |r| :: r[k] < n
  {
    if n == 0 then []
    else
      Eligible(messages, spared, placeholder, n - 1) +
      (if n - 1 !in spared && Clearable(messages[n - 1], placeholder) then [n - 1] else [])
  }

  lemma {:induction false} EligibleIsExact(messages: seq<Message>, spared: set<nat>, placeholder: string, n: nat)
    requires n <= |messages|
    ensures Increasing(Eligible(messages, spared, placeholder, n), n)
    ensures forall i: nat :: i in Eligible(messages, spared, placeholder, n) <==>
                             i < n && i !in spared && Clearable(messages[i], placeholder)
  {
    if n > 0 {
      EligibleIsExact(messages, spared, placeholder, n - 1);
    }
  }

  function ClearOne(m: Message, placeholder: string): Message {
    m.(content := Text(placeholder))
  }

  /** The messages with the first k of the given positions cleared. */
  function ClearFirst(messages: seq<Message>, indices: seq<nat>, k: nat, placeholder: string): (r: seq<Message>)
    requires k <= |indices| && forall j | 0 <= j < |indices| :: indices[j] < |messages|
    ensures |r| == |messages|
  {
    if k == 0 then messages
    else
      var before := ClearFirst(messages, indices, k - 1, placeholder);
      before[indices[k - 1] := ClearOne(before[indices[k - 1]], placeholder)]
  }

  /** How many the loop clears: it stops at the first estimate within budget, or when it runs out. */
  function ClearedCount(messages: seq<Message>, indices: seq<nat>, budget: int, placeholder: string, k: nat): (n: nat)
    requires k <= |indices| && forall j | 0 <= j < |indices| :: indices[j] < |messages|
    ensures k <= n <= |indices|
    ensures n == |indices| || Estimate(ClearFirst(messages, indices, n, placeholder)) <= budget
    ensures forall j | k <= j < n :: Estimate(ClearFirst(messages, indices, j, placeholder)) > budget
    decreases |indices| - k
  {
    if k == |indices| || Estimate(ClearFirst(messages, indices, k, placeholder)) <= budget then k
    else ClearedCount(messages, indices, budget, placeholder, k + 1)
  }

  function ClearedToBudget(messages: seq<Message>, spared: set<nat>, budget: int, placeholder: string): seq<Message> {
    var indices := Eligible(messages, spared, placeholder, |messages|);
    ClearFirst(messages, indices, ClearedCount(messages, indices, budget, placeholder, 0), placeholder)
  }

  method ClearOldest(messages: seq<Message>, indices: seq<nat>, budget: int, placeholder: string)
    returns (result: seq<Message>, cleared: nat)
    requires forall j | 0 <= j < |indices| :: indices[j] < |messages|
    ensures cleared == ClearedCount(messages, indices, budget, placeholder, 0)
    ensures result == ClearFirst(messages, indices, cleared, placeholder)
  {
    result, cleared := messages, 0;
    while cleared < |indices|
      invariant cleared <= |indices| && result == ClearFirst(messages, indices, cleared, placeholder)
      invariant ClearedCount(messages, indices, budget, placeholder, 0) ==
                ClearedCount(messages, indices, budget, placeholder, cleared)
    {
      var tokens := EstimateTokens(result);
      if tokens <= budget {
        break;
      }
      var i := indices[cleared];
      result := result[i := ClearOne(result[i], placeholder)];
      cleared := cleared + 1;
    }
  }

  method CollectEligible(messages: seq<Message>, spared: set<nat>, placeholder: string) returns (indices: seq<nat>)
    ensures indices == Eligible(messages, spared, placeholder, |messages|)
  {
    indices := [];
    for i := 0 to |messages|
      invariant indices == Eligible(messages, spared, placeholder, i)
    {
      if i !in spared && Clearable(messages[i], placeholder) {
        indices := indices + [i];
      }
    }
  }

  // ----- preventive compaction -----

  function NonSystemIndices(messages: seq<Message>, n: nat): (r: seq<nat>)
    requires n <= |messages|
    ensures forall k | 0 <= k < |r| :: r[k] < n && !messages[r[k]].role.System?
  {
    if n == 0 then []
    else NonSystemIndices(messages, n - 1) + (if messages[n - 1].role.System? then [] else [n - 1])
  }

  function LastFour(indices: seq<nat>): seq<nat> {
    if |indices| >= 4 then indices[|indices| - 4..] else indices
  }

  function SetOf(indices: seq<nat>): set<nat> {
    set i | i in indices
  }

  function Protected(messages: seq<Message>): set<nat> {
    SetOf(LastFour(NonSystemIndices(messages, |messages|)))
  }

  function Compacted(messages: seq<Message>, budget: int): seq<Message> {
    if Estimate(messages) <= budget then messages
    else ClearedToBudget(messages, Protected(messages), budget, COMPACTION_MARKER)
  }

  method ProtectRecent(messages: seq<Message>) returns (spared: set<nat>)
    ensures spared == Protected(messages)
  {
    var nonSystem := [];
    for i := 0 to |messages|
      invariant nonSystem == NonSystemIndices(messages, i)
    {
      if !messages[i].role.System? {
        nonSystem := nonSystem + [i];
      }
    }
    var recent := LastFour(nonSystem);
    spared := {};
    for k := 0 to |recent|
      invariant spared == SetOf(recent[..k])
    {
      spared := spared + {recent[k]};
      assert recent[..k + 1] == recent[..k] + [recent[k]];
    }
    assert recent[..|recent|] == recent;
  }

  method CompactToolResults(messages: seq<Message>, budget: int) returns (result: seq<Message>)
    ensures result == Compacted(messages, budget)
    ensures result == if TotalSize(messages) / 3 <= budget then messages
                      else ClearedToBudget(messages, Protected(messages), budget, COMPACTION_MARKER)
  {
    var tokens := EstimateTokens(messages);
    if tokens <= budget {
      return messages;
    }
    var spared := ProtectRecent(messages);
    var indices := CollectEligible(messages, spared, COMPACTION_MARKER);
    var cleared;
    result, cleared := ClearOldest(messages, indices, budget, COMPACTION_MARKER);
  }

  /** Recovery-time clearing: nothing is protected, and the number of cleared results is reported. */
  function Truncated(messages: seq<Message>, target: int, placeholder: string): seq<Message> {
    if Estimate(messages) <= target then messages else ClearedToBudget(messages, {}, target, placeholder)
  }

  method TruncateOldestToolResults(messages: seq<Message>, targetTokens: int, placeholderOrEmpty: string)
    returns (result: seq<Message>, cleared: nat)
    ensures var placeholder := if placeholderOrEmpty == "" then HARD_CLEAR_MARKER else placeholderOrEmpty;
      && result == Truncated(messages, targetTokens, placeholder)
      && result == (if TotalSize(messages) / 3 <= targetTokens then messages
                    else ClearedToBudget(messages, {}, targetTokens, placeholder))
      && cleared == ClearedCount(messages, Eligible(messages, {}, placeholder, |messages|), targetTokens, placeholder, 0)
  {
    var placeholder := if placeholderOrEmpty == "" then HARD_CLEAR_MARKER else placeholderOrEmpty;
    var tokens := EstimateTokens(messages);
    if tokens <= targetTokens {
      return messages, 0;
    }
    var indices := CollectEligible(messages, {}, placeholder);
    result, cleared := ClearOldest(messages, indices, targetTokens, placeholder);
  }

  lemma {:induction false} NothingEligible(messages: seq<Message>, spared: set<nat>, placeholder: string, n: nat)
    requires n <= |messages|
    ensures Eligible(messages, spared, placeholder, n) == [] <==>
            forall i | 0 <= i < n :: i in spared || !Clearable(messages[i], placeholder)
  {
    if n > 0 {
      NothingEligible(messages, spared, placeholder, n - 1);
    }
  }

  /** The count of cleared results is zero exactly when the prompt already fits or nothing can be cleared. */
  lemma ZeroClearedExactly(messages: seq<Message>, target: int, placeholder: string)
    ensures ClearedCount(messages, Eligible(messages, {}, placeholder, |messages|), target, placeholder, 0) == 0 <==>
            Estimate(messages) <= target || forall m | m in messages :: !Clearable(m, placeholder)
  {
    NothingEligible(messages, {}, placeholder, |messages|);
    assert (forall m | m in messages :: !Clearable(m, placeholder)) <==>
           (forall i | 0 <= i < |messages| :: !Clearable(messages[i], placeholder));
  }

  // ----- what clearing does -----

  lemma {:induction false} ClearFirstIsExact(messages: seq<Message>, indices: seq<nat>, k: nat, placeholder: string)
    requires k <= |indices| && Increasing(indices, |messages|)
    ensures var r := ClearFirst(messages, indices, k, placeholder);
      forall i | 0 <= i < |messages| ::
        r[i] == if i in indices[..k] then ClearOne(messages[i], placeholder) else messages[i]
  {
    if k > 0 {
      ClearFirstIsExact(messages, indices, k - 1, placeholder);
      assert indices[..k] == indices[..k - 1] + [indices[k - 1]];
    }
  }

  /** The size once the first k eligible results are cleared. */
  function SizeCleared(messages: seq<Message>, spared: set<nat>, placeholder: string, k: nat): nat
    requires k <= |Eligible(messages, spared, placeholder, |messages|)|
  {
    TotalSize(ClearFirst(messages, Eligible(messages, spared, placeholder, |messages|), k, placeholder))
  }

  /** Clearing one more eligible result lowers the size, if the placeholder is at most 100 bytes. */
  lemma EachClearShrinks(messages: seq<Message>, spared: set<nat>, placeholder: string, k: nat)
    requires |placeholder| <= CLEARABLE_BYTES
    requires k < |Eligible(messages, spared, placeholder, |messages|)|
    ensures SizeCleared(messages, spared, placeholder, k + 1) < SizeCleared(messages, spared, placeholder, k)
  {
    var indices := Eligible(messages, spared, placeholder, |messages|);
    EligibleIsExact(messages, spared, placeholder, |messages|);
    ClearFirstIsExact(messages, indices, k, placeholder);
    var before, i := ClearFirst(messages, indices, k, placeholder), indices[k];
    assert i !in indices[..k];
    assert i in indices;
    SizeAfterUpdate(before, i, ClearOne(before[i], placeholder));
  }

  lemma {:induction false} MoreClearsShrink(messages: seq<Message>, spared: set<nat>, placeholder: string, j: nat, k: nat)
    requires |placeholder| <= CLEARABLE_BYTES
    requires j <= k <= |Eligible(messages, spared, placeholder, |messages|)|
    ensures SizeCleared(messages, spared, placeholder, k) <= SizeCleared(messages, spared, placeholder, j)
  {
    if j < k {
      EachClearShrinks(messages, spared, placeholder, k - 1);
      MoreClearsShrink(messages, spared, placeholder, j, k - 1);
    }
  }

  /** The cleared positions are the shortest oldest-first prefix of the eligible ones that meets the budget, or all of them. */
  lemma ClearsShortestPrefix(messages: seq<Message>, spared: set<nat>, budget: int, placeholder: string, k: nat)
    requires |placeholder| <= CLEARABLE_BYTES
    requires k <= |Eligible(messages, spared, placeholder, |messages|)|
    ensures var indices := Eligible(messages, spared, placeholder, |messages|);
      var n := ClearedCount(messages, indices, budget, placeholder, 0);
      && (k < n ==> SizeCleared(messages, spared, placeholder, k) / BYTES_PER_TOKEN > budget)
      && (n <= k && n < |indices| ==> SizeCleared(messages, spared, placeholder, k) / BYTES_PER_TOKEN <= budget)
      && Estimate(ClearedToBudget(messages, spared, budget, placeholder)) <= Estimate(messages)
  {
    var indices := Eligible(messages, spared, placeholder, |messages|);
    var n := ClearedCount(messages, indices, budget, placeholder, 0);
    MoreClearsShrink(messages, spared, placeholder, 0, n);
    if n <= k {
      MoreClearsShrink(messages, spared, placeholder, n, k);
    }
  }

  /** Everything but the content of the cleared positions is unchanged. */
  lemma ClearingChangesNothingElse(messages: seq<Message>, spared: set<nat>, budget: int, placeholder: string)
    ensures var r := ClearedToBudget(messages, spared, budget, placeholder);
      && |r| == |messages|
      && forall i | 0 <= i < |messages| ::
           && r[i] == messages[i].(content := r[i].content)
           && (r[i] != messages[i] ==> i !in spared && Clearable(messages[i], placeholder) && r[i].content == Text(placeholder))
  {
    var indices := Eligible(messages, spared, placeholder, |messages|);
    var n := ClearedCount(messages, indices, budget, placeholder, 0);
    EligibleIsExact(messages, spared, placeholder, |messages|);
    ClearFirstIsExact(messages, indices, n, placeholder);
    forall i: nat | i < |messages| && i in indices[..n] ensures i in indices {
    }
  }

  /** A result may be cleared when it is a text of more than 100 bytes that is not cleared yet. */
  lemma ClearableExactly(m: Message, placeholder: string)
    ensures Clearable(m, placeholder) <==>
            && m.role == Tool && m.content.Text? && |m.content.text| > 100
            && m.content.text != placeholder && m.content.text != COMPACTION_MARKER
  {
  }

  /** The positions that clearing to a budget clears. */
  function ClearedAt(messages: seq<Message>, spared: set<nat>, budget: int, placeholder: string): seq<nat> {
    var indices := Eligible(messages, spared, placeholder, |messages|);
    indices[..ClearedCount(messages, indices, budget, placeholder, 0)]
  }

  /** The eligible results below some position are cleared, and nothing else changes. */
  lemma ClearsExactly(messages: seq<Message>, spared: set<nat>, budget: int, placeholder: string) returns (limit: nat)
    ensures var r, at := ClearedToBudget(messages, spared, budget, placeholder), ClearedAt(messages, spared, budget, placeholder);
      && |r| == |messages| && Increasing(at, |messages|)
      && (forall i | 0 <= i < |messages| ::
            i in at <==> i < limit && i !in spared && Clearable(messages[i], placeholder))
      && (forall i | 0 <= i < |messages| ::
            r[i] == if i in at then messages[i].(content := Text(placeholder)) else messages[i])
  {
    var indices := Eligible(messages, spared, placeholder, |messages|);
    var n := ClearedCount(messages, indices, budget, placeholder, 0);
    EligibleIsExact(messages, spared, placeholder, |messages|);
    ClearFirstIsExact(messages, indices, n, placeholder);
    limit := if n == |indices| then |messages| else indices[n];
    EligibleBelow(indices, n, |messages|);
  }

  /**
    * Clearing stops as soon as the estimate is within budget, or when all eligible results are cleared:
    * putting the last one back would exceed the budget.
    */
  lemma ClearsNoMoreThanNeeded(messages: seq<Message>, spared: set<nat>, budget: int, placeholder: string)
    ensures var r, at := ClearedToBudget(messages, spared, budget, placeholder), ClearedAt(messages, spared, budget, placeholder);
      && |r| == |messages| && (forall k | 0 <= k < |at| :: at[k] < |messages|)
      && (TotalSize(r) / 3 <= budget ||
            forall i | 0 <= i < |messages| && i !in spared && Clearable(messages[i], placeholder) :: i in at)
      && (at != [] ==> TotalSize(r[at[|at| - 1] := messages[at[|at| - 1]]]) / 3 > budget)
  {
    var indices := Eligible(messages, spared, placeholder, |messages|);
    var n := ClearedCount(messages, indices, budget, placeholder, 0);
    EligibleIsExact(messages, spared, placeholder, |messages|);
    if n == |indices| {
      assert indices[..n] == indices;
    }
    if n > 0 {
      OneBack(messages, indices, n, placeholder);
    }
  }

  /** Putting the last cleared message back is clearing one fewer. */
  lemma OneBack(messages: seq<Message>, indices: seq<nat>, n: nat, placeholder: string)
    requires 0 < n <= |indices| && Increasing(indices, |messages|)
    ensures var i := indices[n - 1];
      ClearFirst(messages, indices, n, placeholder)[i := messages[i]] == ClearFirst(messages, indices, n - 1, placeholder)
  {
    var before, i := ClearFirst(messages, indices, n - 1, placeholder), indices[n - 1];
    ClearFirstIsExact(messages, indices, n - 1, placeholder);
    assert i !in indices[..n - 1];
    assert before[i] == messages[i];
  }

  lemma EligibleBelow(indices: seq<nat>, n: nat, bound: nat)
    requires Increasing(indices, bound) && n <= |indices|
    ensures forall i: nat | i < bound :: i in indices[..n] <==> i in indices && (n == |indices| || i < indices[n])
  {
    forall i: nat | i < bound ensures i in indices[..n] <==> i in indices && (n == |indices| || i < indices[n]) {
      if i in indices {
        var k :| 0 <= k < |indices| && indices[k] == i;
        assert k < n ==> indices[..n][k] == i;
        if i in indices[..n] {
          var m :| 0 <= m < n && indices[..n][m] == i;
          assert indices[m] == i;
        }
      }
    }
  }

  /** The messages that are spared: those that are no system messages and have fewer than four such messages behind them. */
  lemma ProtectedExactly(messages: seq<Message>, i: nat)
    requires i < |messages|
    ensures i in Protected(messages) <==> messages[i].role != System && |DialoguePart(messages[i + 1..])| < 4
  {
    NonSystemExactly(messages, |messages|);
    if messages[i].role != System {
      PlaceOfNonSystem(messages, |messages|, i);
      AmongLast(NonSystemIndices(messages, |messages|), |NonSystemIndices(messages, i)|, |messages|);
      CountBehind(messages, i);
    }
  }

  lemma CountBehind(messages: seq<Message>, i: nat)
    requires i < |messages|
    ensures |NonSystemIndices(messages, |messages|)| ==
            |NonSystemIndices(messages, i + 1)| + |DialoguePart(messages[i + 1..])|
  {
    CountNonSystem(messages, |messages|);
    CountNonSystem(messages, i + 1);
    DialogueAddsUp(messages[..i + 1], messages[i + 1..]);
    assert messages[..i + 1] + messages[i + 1..] == messages && messages[..|messages|] == messages;
  }

  lemma {:induction false} PlaceOfNonSystem(messages: seq<Message>, n: nat, i: nat)
    requires i < n <= |messages| && messages[i].role != System
    ensures var indices, k := NonSystemIndices(messages, n), |NonSystemIndices(messages, i)|;
      k < |indices| && indices[k] == i && |NonSystemIndices(messages, i + 1)| == k + 1
  {
    if i < n - 1 {
      PlaceOfNonSystem(messages, n - 1, i);
    }
  }

  lemma {:induction false} CountNonSystem(messages: seq<Message>, n: nat)
    requires n <= |messages|
    ensures |NonSystemIndices(messages, n)| == |DialoguePart(messages[..n])|
  {
    if n > 0 {
      CountNonSystem(messages, n - 1);
      assert messages[..n][..n - 1] == messages[..n - 1];
    }
  }

  lemma {:induction false} DialogueAddsUp(a: seq<Message>, b: seq<Message>)
    ensures |DialoguePart(a + b)| == |DialoguePart(a)| + |DialoguePart(b)|
  {
    if b == [] {
      assert a + b == a;
    } else {
      DialogueAddsUp(a, b[..|b| - 1]);
      assert (a + b)[..|a + b| - 1] == a + b[..|b| - 1];
    }
  }

  lemma {:induction false} NonSystemExactly(messages: seq<Message>, n: nat)
    requires n <= |messages|
    ensures Increasing(NonSystemIndices(messages, n), n)
    ensures forall i: nat :: i in NonSystemIndices(messages, n) <==> i < n && messages[i].role != System
  {
    if n > 0 {
      NonSystemExactly(messages, n - 1);
    }
  }

  lemma AmongLast(indices: seq<nat>, k: nat, bound: nat)
    requires Increasing(indices, bound) && k < |indices|
    ensures indices[k] in LastFour(indices) <==> k + 4 >= |indices|
  {
    var recent := LastFour(indices);
    var from := |indices| - |recent|;
    assert forall m | 0 <= m < |recent| :: recent[m] == indices[from + m];
    if k >= from {
      assert recent[k - from] == indices[k];
    }
  }

  lemma OnlyAnswersAreCleared(messages: seq<Message>, budget: int, i: nat)
    requires i < |messages|
    ensures |Compacted(messages, budget)| == |messages|
    ensures !messages[i].role.Tool? ==> Compacted(messages, budget)[i] == messages[i]
  {
    ClearingChangesNothingElse(messages, Protected(messages), budget, COMPACTION_MARKER);
  }

  lemma {:induction false} SameRolesSameIndices(a: seq<Message>, b: seq<Message>, n: nat)
    requires |a| == |b| && n <= |a| && forall i | 0 <= i < |a| :: a[i].role == b[i].role
    ensures NonSystemIndices(a, n) == NonSystemIndices(b, n)
  {
    if n > 0 {
      SameRolesSameIndices(a, b, n - 1);
    }
  }

  lemma ClearingAgainDoesNothing(messages: seq<Message>, spared: set<nat>, budget: int, placeholder: string)
    ensures var r := ClearedToBudget(messages, spared, budget, placeholder);
      Estimate(r) <= budget || ClearedToBudget(r, spared, budget, placeholder) == r
  {
    var indices := Eligible(messages, spared, placeholder, |messages|);
    var n := ClearedCount(messages, indices, budget, placeholder, 0);
    var r := ClearedToBudget(messages, spared, budget, placeholder);
    if Estimate(r) > budget {
      EligibleIsExact(messages, spared, placeholder, |messages|);
      ClearFirstIsExact(messages, indices, n, placeholder);
      assert indices[..n] == indices;
      NothingEligible(r, spared, placeholder, |r|);
    }
  }

  /** Both clearing passes are idempotent; the preventive one leaves the last four non-system messages alone. */
  lemma CompactionIsStable(messages: seq<Message>, budget: int, placeholder: string)
    ensures Compacted(Compacted(messages, budget), budget) == Compacted(messages, budget)
    ensures Truncated(Truncated(messages, budget, placeholder), budget, placeholder) == Truncated(messages, budget, placeholder)
    ensures forall i | i in LastFour(NonSystemIndices(messages, |messages|)) :: Compacted(messages, budget)[i] == messages[i]
  {
    var spared, r := Protected(messages), Compacted(messages, budget);
    ClearingChangesNothingElse(messages, spared, budget, COMPACTION_MARKER);
    SameRolesSameIndices(messages, r, |messages|);
    ClearingAgainDoesNothing(messages, spared, budget, COMPACTION_MARKER);
    ClearingAgainDoesNothing(messages, {}, budget, placeholder);
  }

  /** Clearing contents never breaks a block. */
  lemma CompactionKeepsBlocks(messages: seq<Message>, budget: int)
    requires Complete(messages)
    ensures Complete(Compacted(messages, budget)) && Paired(Compacted(messages, budget))
  {
    ClearingChangesNothingElse(messages, Protected(messages), budget, COMPACTION_MARKER);
    if Estimate(messages) > budget {
      LinksDecide(messages, Compacted(messages, budget));
    }
    CompletePairs(Compacted(messages, budget));
  }

  // ----- recovery rewriting -----

  function SystemPart(messages: seq<Message>): seq<Message> {
    if messages == [] then []
    else
      var last := messages[|messages| - 1];
      SystemPart(messages[..|messages| - 1]) + (if last.role.System? then [last] else [])
  }

  function DialoguePart(messages: seq<Message>): seq<Message> {
    if messages == [] then []
    else
      var last := messages[|messages| - 1];
      DialoguePart(messages[..|messages| - 1]) + (if last.role.System? then [] else [last])
  }

  predicate Declares(m: Message, id: string) {
    m.role.Assistant? && exists c | c in CallList(m) :: c.ToolCall? && c.id == id
  }

  predicate HasParent(prior: seq<Message>, id: string) {
    exists r | r in prior :: Declares(r, id)
  }

  function AnswerId(m: Message): string {
    m.toolCallId.GetOr("")
  }

  /** Drops every tool message that no kept assistant before it declares. */
  function WithParents(messages: seq<Message>): seq<Message> {
    if messages == [] then []
    else
      var kept, last := WithParents(messages[..|messages| - 1]), messages[|messages| - 1];
      if last.role.Tool? && !HasParent(kept, AnswerId(last)) then kept else kept + [last]
  }

  method HasParentToolCall(prior: seq<Message>, id: string) returns (found: bool)
    ensures found == HasParent(prior, id)
  {
    for i := 0 to |prior|
      invariant !HasParent(prior[..i], id)
    {
      assert prior[..i + 1] == prior[..i] + [prior[i]];
      if prior[i].role.Assistant? {
        var calls := CallList(prior[i]);
        for j := 0 to |calls|
          invariant forall c | c in calls[..j] :: !(c.ToolCall? && c.id == id)
        {
          assert calls[..j + 1] == calls[..j] + [calls[j]];
          if calls[j].ToolCall? && calls[j].id == id {
            assert prior[i] in prior && calls[j] in CallList(prior[i]);
            return true;
          }
        }
        assert calls[..|calls|] == calls;
      }
    }
    assert prior[..|prior|] == prior;
    return false;
  }

  method DropParentless(messages: seq<Message>) returns (repaired: seq<Message>)
    ensures repaired == WithParents(messages)
  {
    repaired := [];
    for i := 0 to |messages|
      invariant repaired == WithParents(messages[..i])
    {
      var m := messages[i];
      assert messages[..i + 1][..i] == messages[..i];
      if m.role.Tool? {
        var found := HasParentToolCall(repaired, AnswerId(m));
        if !found {
          continue;
        }
      }
      repaired := repaired + [m];
    }
    assert messages[..|messages|] == messages;
  }

  method Separate(messages: seq<Message>) returns (system: seq<Message>, dialogue: seq<Message>)
    ensures system == SystemPart(messages) && dialogue == DialoguePart(messages)
  {
    system, dialogue := [], [];
    for i := 0 to |messages|
      invariant system == SystemPart(messages[..i]) && dialogue == DialoguePart(messages[..i])
    {
      assert messages[..i + 1][..i] == messages[..i];
      if messages[i].role.System? {
        system := system + [messages[i]];
      } else {
        dialogue := dialogue + [messages[i]];
      }
    }
    assert messages[..|messages|] == messages;
  }

  function Halved(messages: seq<Message>): seq<Message> {
    var dialogue := DialoguePart(messages);
    SystemPart(messages) + WithParents(dialogue[|dialogue| / 2..])
  }

  method DropOldestHalf(messages: seq<Message>) returns (out: seq<Message>)
    ensures out == Halved(messages)
    ensures out == SystemPart(messages) + WithParents(DialoguePart(messages)[|DialoguePart(messages)| / 2..])
  {
    var system, dialogue := Separate(messages);
    var repaired := DropParentless(dialogue[|dialogue| / 2..]);
    out := system + repaired;
  }

  /** The longest prefix whose estimate stays within the cap, from length k on. */
  function ChunkLength(eligible: seq<Message>, cap: int, k: nat): (n: nat)
    requires k <= |eligible|
    ensures k <= n <= |eligible|
    decreases |eligible| - k
  {
    if k < |eligible| && Estimate(eligible[..k + 1]) <= cap then ChunkLength(eligible, cap, k + 1) else k
  }

  datatype Split = Split(system: seq<Message>, chunk: seq<Message>, remaining: seq<Message>, tail: seq<Message>)

  /** How the summarising recovery divides a prompt; no result when nothing can be summarised. */
  function SplitForSummary(messages: seq<Message>, target: int, keepRecent: nat, maxInput: int): Option<Split>
  {
    var dialogue := DialoguePart(messages);
    if Estimate(messages) <= target || |dialogue| <= keepRecent then None
    else
      var eligible, tail := dialogue[..|dialogue| - keepRecent], dialogue[|dialogue| - keepRecent..];
      var cap := if maxInput == 0 then HalfTruncated(target) else maxInput;
      var n := if cap > 0 then ChunkLength(eligible, cap, 0) else |eligible|;
      if n == 0 then None else Some(Split(SystemPart(messages), eligible[..n], eligible[n..], tail))
  }

  function SummaryMessage(text: string): Message {
    Message(User, Text(SUMMARY_PREFIX + text), None, None, None, map[])
  }

  /** The rewritten prompt once the summariser has answered with `text`. */
  function Summarized(s: Split, text: string): seq<Message> {
    WithParents(s.system + [SummaryMessage(text)] + s.remaining + s.tail)
  }

  /** `answer` is what the summariser returns for a chunk: None for an error. */
  method SummarizeOldChunks(messages: seq<Message>, targetTokens: int, keepRecentOrZero: int, maxInput: int,
                            answer: seq<Message> -> Option<string>)
    returns (out: seq<Message>, summarized: bool, failed: bool)
    ensures var split := SplitForSummary(messages, targetTokens, if keepRecentOrZero <= 0 then 4 else keepRecentOrZero, maxInput);
      && summarized == (split.Some? && answer(split.value.chunk).GetOr("") != "")
      && failed == (split.Some? && answer(split.value.chunk).None?)
      && out == (if summarized then Summarized(split.value, answer(split.value.chunk).value) else messages)
      && (summarized ==> out == WithParents(
            split.value.system
            + [Message(User, Text("Summary of prior conversation (older messages were summarized to free context):\n\n"
                                  + answer(split.value.chunk).value), None, None, None, map[])]
            + split.value.remaining + split.value.tail))
  {
    var keepRecent := if keepRecentOrZero <= 0 then 4 else keepRecentOrZero;
    out, summarized, failed := messages, false, false;
    var tokens := EstimateTokens(messages);
    if tokens <= targetTokens {
      return;
    }
    var system, dialogue := Separate(messages);
    if |dialogue| <= keepRecent {
      return;
    }
    var eligible, tail := dialogue[..|dialogue| - keepRecent], dialogue[|dialogue| - keepRecent..];
    var cap := if maxInput == 0 then HalfTruncated(targetTokens) else maxInput;
    var n := |eligible|;
    if cap > 0 {
      n := 0;
      while n < |eligible|
        invariant n <= |eligible| && ChunkLength(eligible, cap, 0) == ChunkLength(eligible, cap, n)
      {
        var trial := EstimateTokens(eligible[..n + 1]);
        if trial > cap {
          break;
        }
        n := n + 1;
      }
      if n == 0 {
        return;
      }
    }
    var chunk, remaining := eligible[..n], eligible[n..];
    match answer(chunk) {
      case None => failed := true;
      case Some(text) =>
        if text != "" {
          out := DropParentless(system + [SummaryMessage(text)] + remaining + tail);
          summarized := true;
        }
    }
  }

  // ----- what the rewriting takes -----

  /** System messages on one side, the others on the other, each in order. */
  lemma {:induction false} SeparatesInOrder(messages: seq<Message>) returns (system: seq<nat>, dialogue: seq<nat>)
    ensures StandAt(SystemPart(messages), messages, system) && StandAt(DialoguePart(messages), messages, dialogue)
    ensures forall i | 0 <= i < |messages| :: i in system <==> messages[i].role == System
    ensures forall i | 0 <= i < |messages| :: i in dialogue <==> messages[i].role != System
  {
    system, dialogue := [], [];
    if messages != [] {
      var front, last := messages[..|messages| - 1], messages[|messages| - 1];
      system, dialogue := SeparatesInOrder(front);
      StandAtExtends(SystemPart(front), front, system, last, last.role == System);
      StandAtExtends(DialoguePart(front), front, dialogue, last, last.role != System);
      system := system + if last.role == System then [|front|] else [];
      dialogue := dialogue + if last.role != System then [|front|] else [];
      assert messages == front + [last];
    }
  }

  predicate DeclaredBefore(messages: seq<Message>, i: nat, id: string)
    requires i <= |messages|
  {
    exists j, k | 0 <= j < i && messages[j].role == Assistant && messages[j].calls.Some? && 0 <= k < |messages[j].calls.value| ::
      messages[j].calls.value[k].ToolCall? && messages[j].calls.value[k].id == id
  }

  lemma ParentExactly(messages: seq<Message>, i: nat, id: string)
    requires i <= |messages|
    ensures HasParent(messages[..i], id) <==> DeclaredBefore(messages, i, id)
  {
    if HasParent(messages[..i], id) {
      var r :| r in messages[..i] && Declares(r, id);
      var c :| c in CallList(r) && c.ToolCall? && c.id == id;
      var j :| 0 <= j < i && messages[..i][j] == r;
      var k :| 0 <= k < |CallList(r)| && CallList(r)[k] == c;
      assert messages[j].calls.value[k].id == id;
    }
    if DeclaredBefore(messages, i, id) {
      var j, k :| 0 <= j < i && messages[j].role == Assistant && messages[j].calls.Some? && 0 <= k < |messages[j].calls.value| &&
        messages[j].calls.value[k].ToolCall? && messages[j].calls.value[k].id == id;
      assert messages[j] == messages[..i][j] && messages[j].calls.value[k] in CallList(messages[j]);
      assert messages[j] in messages[..i];
    }
  }

  /** Of a list all stays, in order, but the tool messages whose id no assistant message before them declares. */
  lemma {:induction false} ParentlessGoExactly(messages: seq<Message>) returns (at: seq<nat>)
    ensures StandAt(WithParents(messages), messages, at)
    ensures forall i | 0 <= i < |messages| ::
              i in at <==> messages[i].role != Tool ||
                           DeclaredBefore(messages, i, if messages[i].toolCallId.Some? then messages[i].toolCallId.value else "")
  {
    at := [];
    if messages != [] {
      var n := |messages| - 1;
      var front, last := messages[..n], messages[n];
      at := ParentlessGoExactly(front);
      OnlyParentlessGo(messages);
      var stays := !(last.role.Tool? && !HasParent(front, AnswerId(last)));
      StandAtExtends(WithParents(front), front, at, last, stays);
      at := at + if stays then [n] else [];
      assert messages == front + [last];
      ParentExactly(messages, n, AnswerId(last));
      assert forall i, id | 0 <= i < n :: DeclaredBefore(messages, i, id) <==> DeclaredBefore(front, i, id);
    }
  }

  /** When a summary is made at all, and of what. */
  lemma SplitsExactly(messages: seq<Message>, target: int, keepRecent: nat, maxInput: int)
    ensures var cap := if maxInput == 0 then HalfTruncated(target) else maxInput;
      SplitForSummary(messages, target, keepRecent, maxInput) == None <==>
      || TotalSize(messages) / 3 <= target || |DialoguePart(messages)| <= keepRecent
      || (cap > 0 && TotalSize(DialoguePart(messages)[..1]) / 3 > cap)
    ensures SplitForSummary(messages, target, keepRecent, maxInput).Some? ==>
            SplitForSummary(messages, target, keepRecent, maxInput).value.system == SystemPart(messages)
  {
    var dialogue := DialoguePart(messages);
    if |dialogue| > keepRecent {
      assert dialogue[..|dialogue| - keepRecent][..1] == dialogue[..1];
    }
  }

  // ----- what the rewriting keeps -----

  lemma {:induction false} SeparationIsLossless(messages: seq<Message>)
    ensures multiset(SystemPart(messages)) + multiset(DialoguePart(messages)) == multiset(messages)
    ensures forall m | m in SystemPart(messages) :: m.role.System?
    ensures forall m | m in DialoguePart(messages) :: !m.role.System?
  {
    if messages != [] {
      SeparationIsLossless(messages[..|messages| - 1]);
      assert messages == messages[..|messages| - 1] + [messages[|messages| - 1]];
    }
  }

  lemma {:induction false} ChunkIsMaximal(eligible: seq<Message>, cap: int, k: nat)
    requires k <= |eligible| && Estimate(eligible[..k]) <= cap
    ensures var n := ChunkLength(eligible, cap, k);
      && Estimate(eligible[..n]) <= cap
      && forall j | n < j <= |eligible| :: Estimate(eligible[..j]) > cap
    decreases |eligible| - k
  {
    var n := ChunkLength(eligible, cap, k);
    if n > k {
      ChunkIsMaximal(eligible, cap, k + 1);
    } else {
      forall j | k < j <= |eligible| ensures Estimate(eligible[..j]) > cap {
        SizeOfPrefix(eligible[..j], k + 1);
        assert eligible[..j][..k + 1] == eligible[..k + 1];
      }
    }
  }

  /** Chunk, remaining and tail are the dialogue, in order; the chunk is the longest prefix that fits and leaves the recent ones. */
  lemma SplitIsLossless(messages: seq<Message>, target: int, keepRecent: nat, maxInput: int)
    requires SplitForSummary(messages, target, keepRecent, maxInput).Some?
    ensures var s := SplitForSummary(messages, target, keepRecent, maxInput).value;
      var cap := if maxInput == 0 then HalfTruncated(target) else maxInput;
      && s.chunk + s.remaining + s.tail == DialoguePart(messages)
      && s.chunk != [] && |s.tail| == keepRecent
      && (cap <= 0 ==> s.remaining == [])
      && (cap > 0 ==> Estimate(s.chunk) <= cap)
      && (cap > 0 ==>
            forall j | |s.chunk| < j <= |s.chunk + s.remaining| :: Estimate((s.chunk + s.remaining)[..j]) > cap)
  {
    var dialogue := DialoguePart(messages);
    var eligible := dialogue[..|dialogue| - keepRecent];
    var s := SplitForSummary(messages, target, keepRecent, maxInput).value;
    assert s.chunk + s.remaining == eligible;
    assert eligible + s.tail == dialogue;
    var cap := if maxInput == 0 then HalfTruncated(target) else maxInput;
    if cap > 0 {
      ChunkIsMaximal(eligible, cap, 0);
    }
  }

  lemma {:induction false} KeepingAssistantsKeepsParents(messages: seq<Message>, id: string)
    ensures HasParent(WithParents(messages), id) <==> HasParent(messages, id)
  {
    if messages != [] {
      var front, last := messages[..|messages| - 1], messages[|messages| - 1];
      KeepingAssistantsKeepsParents(front, id);
      assert messages == front + [last];
      assert forall m :: m in messages <==> m in front || m == last;
    }
  }

  /** A tool message goes exactly when no assistant before it declares its id; every other message stays. */
  lemma OnlyParentlessGo(messages: seq<Message>)
    requires messages != []
    ensures var front, last := messages[..|messages| - 1], messages[|messages| - 1];
      WithParents(messages) == WithParents(front) +
        (if last.role.Tool? && !HasParent(front, AnswerId(last)) then [] else [last])
  {
    KeepingAssistantsKeepsParents(messages[..|messages| - 1], AnswerId(messages[|messages| - 1]));
  }

  /** In what is left every tool message has an earlier assistant that declares its id. */
  lemma {:induction false} EveryAnswerHasAParent(messages: seq<Message>, i: nat)
    requires i < |WithParents(messages)|
    ensures var r := WithParents(messages); r[i].role.Tool? ==> HasParent(r[..i], AnswerId(r[i]))
  {
    var front := messages[..|messages| - 1];
    if i < |WithParents(front)| {
      EveryAnswerHasAParent(front, i);
      assert WithParents(messages)[..i] == WithParents(front)[..i];
    } else {
      assert WithParents(messages)[..i] == WithParents(front);
    }
  }

  lemma {:induction false} DroppingShortens(messages: seq<Message>)
    ensures |WithParents(messages)| <= |messages|
  {
    if messages != [] {
      DroppingShortens(messages[..|messages| - 1]);
    }
  }

  /** Halving keeps the system messages and at most the rounded-up half of the others, with no orphaned answer. */
  lemma HalvingHalves(messages: seq<Message>, i: nat)
    requires i < |Halved(messages)|
    ensures var r, s := Halved(messages), SystemPart(messages);
      && s <= r
      && |r| - |s| <= (|DialoguePart(messages)| + 1) / 2
      && (r[i].role.Tool? ==> HasParent(r[..i], AnswerId(r[i])))
  {
    var dialogue, s := DialoguePart(messages), SystemPart(messages);
    var newer := dialogue[|dialogue| / 2..];
    DroppingShortens(newer);
    SeparationIsLossless(messages);
    if i < |s| {
      assert s[i] in s;
    } else {
      var kept := WithParents(newer);
      EveryAnswerHasAParent(newer, i - |s|);
      assert Halved(messages)[..i] == s + kept[..i - |s|];
    }
  }

  // ----- rewriting complete dialogues -----

  lemma {:induction false} OneBlockStays(before: seq<Message>, block: seq<Message>, k: nat)
    requires IsBlock(block) && 1 <= k <= |block|
    ensures WithParents(before + block[..k]) == WithParents(before) + block[..k]
  {
    var next := before + block[..k];
    assert next[..|next| - 1] == before + block[..k - 1];
    if k == 1 {
      assert before + block[..0] == before;
    } else {
      OneBlockStays(before, block, k - 1);
      var kept, m := WithParents(before) + block[..k - 1], block[k - 1];
      assert m == block[1..][k - 2];
      assert block[..k - 1][0] == block[0];
      assert block[0] in kept && CallList(block[0])[k - 2] in CallList(block[0]);
    }
  }

  /** Complete messages keep everything, whatever stands before them. */
  lemma {:induction false} CompleteStays(before: seq<Message>, messages: seq<Message>)
    requires Complete(messages)
    ensures WithParents(before + messages) == WithParents(before) + messages
    decreases |messages|
  {
    if messages == [] {
      assert before + messages == before;
    } else {
      var n := BlockLength(messages[0]);
      var block, rest := messages[..n], messages[n..];
      calc {
        WithParents(before + messages);
        { assert before + messages == (before + block) + rest; }
        WithParents((before + block) + rest);
        { CompleteStays(before + block, rest); }
        WithParents(before + block) + rest;
        { OneBlockStays(before, block, n); assert block[..n] == block; }
        WithParents(before) + block + rest;
        { assert block + rest == messages; }
        WithParents(before) + messages;
      }
    }
  }

  /** Messages that neither answer nor declare anything. */
  predicate Unlinked(messages: seq<Message>) {
    forall m | m in messages :: !m.role.Tool? && !m.role.Assistant?
  }

  lemma {:induction false} LeadingAnswersGo(front: seq<Message>, answers: seq<Message>)
    requires Unlinked(front) && forall m | m in answers :: m.role.Tool?
    ensures WithParents(front + answers) == front
  {
    var all := front + answers;
    if answers != [] {
      assert all[..|all| - 1] == front + answers[..|answers| - 1];
      LeadingAnswersGo(front, answers[..|answers| - 1]);
    } else if front != [] {
      assert all == front && front[..|front| - 1] + [] == front[..|front| - 1];
      LeadingAnswersGo(front[..|front| - 1], []);
    }
  }

  lemma BeforeTheCutAreAnswers(dialogue: seq<Message>, i: nat)
    requires Complete(dialogue) && i <= |dialogue|
    ensures forall m | m in dialogue[i..NextSafeCut(dialogue, i)] :: m.role.Tool?
  {
    var answers := dialogue[i..NextSafeCut(dialogue, i)];
    forall m | m in answers ensures m.role.Tool? {
      var j :| 0 <= j < |answers| && answers[j] == m;
      UnsafeCutsAreAnswers(dialogue, i + j);
    }
  }

  /** Cutting a complete dialogue anywhere and dropping parentless answers leaves it complete from the next block on. */
  lemma RewritingKeepsBlocks(front: seq<Message>, dialogue: seq<Message>, i: nat)
    requires Unlinked(front) && Complete(dialogue) && i <= |dialogue|
    ensures var cut := NextSafeCut(dialogue, i);
      && WithParents(front + dialogue[i..]) == front + dialogue[cut..]
      && Complete(front + dialogue[cut..])
  {
    var cut := NextSafeCut(dialogue, i);
    var answers, rest := dialogue[i..cut], dialogue[cut..];
    assert Complete(rest) by {
      SafeCutsAreBlockBounds(dialogue, cut);
    }
    calc {
      WithParents(front + dialogue[i..]);
      { assert front + dialogue[i..] == (front + answers) + rest; }
      WithParents((front + answers) + rest);
      { CompleteStays(front + answers, rest); }
      WithParents(front + answers) + rest;
      { BeforeTheCutAreAnswers(dialogue, i); LeadingAnswersGo(front, answers); }
      front + rest;
    }
    UnlinkedIsComplete(front);
    CompleteConcat(front, rest);
  }

  lemma {:induction false} UnlinkedIsComplete(messages: seq<Message>)
    requires Unlinked(messages)
    ensures Complete(messages)
  {
    if messages != [] {
      UnlinkedIsComplete(messages[1..]);
      PlainIsComplete(messages[0]);
      CompleteConcat([messages[0]], messages[1..]);
      assert messages == [messages[0]] + messages[1..];
    }
  }

  /** Halving a prompt with a complete dialogue gives a complete prompt: no call is left unanswered either. */
  lemma HalvingKeepsBlocks(messages: seq<Message>)
    requires Complete(DialoguePart(messages))
    ensures Complete(Halved(messages)) && Paired(Halved(messages))
  {
    var dialogue := DialoguePart(messages);
    RewritingKeepsBlocks([], dialogue, |dialogue| / 2);
    assert [] + dialogue[|dialogue| / 2..] == dialogue[|dialogue| / 2..];
    SeparationIsLossless(messages);
    UnlinkedIsComplete(SystemPart(messages));
    CompleteConcat(SystemPart(messages), WithParents(dialogue[|dialogue| / 2..]));
    CompletePairs(Halved(messages));
  }

  /** So does summarising old chunks, although the chunk may end inside a block. */
  lemma SummarizingKeepsBlocks(messages: seq<Message>, target: int, keepRecent: nat, maxInput: int, text: string)
    requires Complete(DialoguePart(messages))
    requires SplitForSummary(messages, target, keepRecent, maxInput).Some?
    ensures var r := Summarized(SplitForSummary(messages, target, keepRecent, maxInput).value, text);
      Complete(r) && Paired(r)
  {
    SplitIsLossless(messages, target, keepRecent, maxInput);
    SeparationIsLossless(messages);
    AnySplitKeepsBlocks(SplitForSummary(messages, target, keepRecent, maxInput).value, text);
  }

  lemma AnySplitKeepsBlocks(s: Split, text: string)
    requires Complete(s.chunk + s.remaining + s.tail) && forall m | m in s.system :: m.role.System?
    ensures Complete(Summarized(s, text)) && Paired(Summarized(s, text))
  {
    var front, rest := s.system + [SummaryMessage(text)], s.remaining + s.tail;
    assert s.chunk + s.remaining + s.tail == s.chunk + rest;
    SuffixKeepsBlocks(front, s.chunk, rest);
    assert front + s.remaining + s.tail == front + rest;
    CompletePairs(Summarized(s, text));
  }

  lemma SuffixKeepsBlocks(front: seq<Message>, before: seq<Message>, rest: seq<Message>)
    requires Unlinked(front) && Complete(before + rest)
    ensures Complete(WithParents(front + rest))
  {
    RewritingKeepsBlocks(front, before + rest, |before|);
    assert (before + rest)[|before|..] == rest;
  }
}
