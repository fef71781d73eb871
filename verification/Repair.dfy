/** Orphan repair and projection of a message list to the shape sent to the provider. */
module Repair {
  import opened Prelude
  import opened Messages

  /** The entries of `calls` whose id is in `valid`. */
  function KeptCalls(calls: seq<ToolCall>, valid: set<string>): seq<ToolCall> {
    if calls == [] then []
    else
      var c := calls[|calls| - 1];
      KeptCalls(calls[..|calls| - 1], valid) + (if c.ToolCall? && c.id in valid then [c] else [])
  }

  /** What is left of one message: nothing, or the message with its unanswered calls removed. */
  function RepairOne(m: Message, valid: set<string>): (r: seq<Message>)
    ensures |r| <= 1
  {
    match m.role
    case Tool => if m.toolCallId.Some? && m.toolCallId.value != "" && m.toolCallId.value in valid then [m] else []
    case Assistant =>
      if CallList(m) == [] then [m]
      else
        var kept := KeptCalls(CallList(m), valid);
        if kept != [] then [m.(calls := Some(kept))]
        else if TextOf(m) != "" then [m.(calls := None)]
        else []
    case _ => [m]
  }

  function RepairAll(messages: seq<Message>, valid: set<string>): seq<Message> {
    if messages == [] then []
    else RepairAll(messages[..|messages| - 1], valid) + RepairOne(messages[|messages| - 1], valid)
  }

  function Matched(messages: seq<Message>): set<string> {
    Declared(messages) * Answered(messages)
  }

  predicate Paired(messages: seq<Message>) {
    Declared(messages) == Answered(messages)
  }

  function Repaired(messages: seq<Message>): seq<Message> {
    if Paired(messages) then messages else RepairAll(messages, Matched(messages))
  }

  /** Role, content (empty when missing) and the tool fields; everything else is dropped. */
  function Project(m: Message): Message {
    m.(content := if m.content.NoContent? then Text("") else m.content, extra := map[])
  }

  function ProjectAll(messages: seq<Message>): (r: seq<Message>)
    ensures |r| == |messages|
    ensures forall i | 0 <= i < |messages| :: r[i] == Project(messages[i])
  {
    seq(|messages|, i requires 0 <= i < |messages| => Project(messages[i]))
  }

  function View(messages: seq<Message>): seq<Message> {
    ProjectAll(Repaired(messages))
  }

  // ----- the loops -----

  method CollectIds(messages: seq<Message>) returns (declared: set<string>, answered: set<string>)
    ensures declared == Declared(messages) && answered == Answered(messages)
  {
    declared, answered := {}, {};
    for i := 0 to |messages|
      invariant declared == Declared(messages[..i]) && answered == Answered(messages[..i])
    {
      var m := messages[i];
      assert messages[..i + 1][..i] == messages[..i];
      if m.role.Assistant? {
        var calls := CallList(m);
        for j := 0 to |calls|
          invariant declared == Declared(messages[..i]) + CallIds(calls[..j])
        {
          assert calls[..j + 1][..j] == calls[..j];
          if calls[j].ToolCall? && calls[j].id != "" {
            declared := declared + {calls[j].id};
          }
        }
        assert calls[..|calls|] == calls;
      } else if m.role.Tool? {
        if m.toolCallId.Some? && m.toolCallId.value != "" {
          answered := answered + {m.toolCallId.value};
        }
      }
    }
    assert messages[..|messages|] == messages;
  }

  /** Comparing sizes is comparing sets, because the matched ids are among both. */
  lemma SizesDecide(declared: set<string>, answered: set<string>)
    ensures |declared| == |declared * answered| && |answered| == |declared * answered| <==> declared == answered
  {
    var valid := declared * answered;
    if |declared| == |valid| && |answered| == |valid| {
      SubsetOfEqualSize(valid, declared);
      SubsetOfEqualSize(valid, answered);
    }
    if declared == answered {
      assert valid == declared;
    }
  }

  lemma SubsetOfEqualSize<T>(a: set<T>, b: set<T>)
    requires a <= b && |a| == |b|
    ensures a == b
  {
    assert |b - a| == |b| - |a|;
    assert b == a + (b - a);
  }

  method KeepCalls(calls: seq<ToolCall>, valid: set<string>) returns (kept: seq<ToolCall>)
    ensures kept == KeptCalls(calls, valid)
  {
    kept := [];
    for j := 0 to |calls|
      invariant kept == KeptCalls(calls[..j], valid)
    {
      assert calls[..j + 1][..j] == calls[..j];
      if calls[j].ToolCall? && calls[j].id in valid {
        kept := kept + [calls[j]];
      }
    }
    assert calls[..|calls|] == calls;
  }

  method DropOrphans(messages: seq<Message>, valid: set<string>) returns (repaired: seq<Message>)
    ensures repaired == RepairAll(messages, valid)
  {
    repaired := [];
    for i := 0 to |messages|
      invariant repaired == RepairAll(messages[..i], valid)
    {
      var m := messages[i];
      assert messages[..i + 1][..i] == messages[..i];
      match m.role {
        case Tool =>
          if m.toolCallId.Some? && m.toolCallId.value != "" && m.toolCallId.value in valid {
            repaired := repaired + [m];
          }
        case Assistant =>
          if |CallList(m)| > 0 {
            var kept := KeepCalls(CallList(m), valid);
            if |kept| > 0 {
              repaired := repaired + [m.(calls := Some(kept))];
            } else if TextOf(m) != "" {
              repaired := repaired + [m.(calls := None)];
            }
          } else {
            repaired := repaired + [m];
          }
        case _ =>
          repaired := repaired + [m];
      }
    }
    assert messages[..|messages|] == messages;
  }

  method RepairAndProject(messages: seq<Message>) returns (out: seq<Message>)
    ensures out == View(messages)
  {
    var declared, answered := CollectIds(messages);
    var valid := set id | id in declared && id in answered;
    assert valid == declared * answered;
    SizesDecide(declared, answered);
    var current := messages;
    if |declared| != |valid| || |answered| != |valid| {
      current := DropOrphans(messages, valid);
    }
    out := ProjectMessages(current);
  }

  method ProjectMessages(messages: seq<Message>) returns (out: seq<Message>)
    ensures out == ProjectAll(messages)
  {
    out := [];
    for i := 0 to |messages|
      invariant |out| == i && forall k | 0 <= k < i :: out[k] == Project(messages[k])
    {
      out := out + [Project(messages[i])];
    }
  }

  // ----- what the result is -----

  lemma {:induction false} ProjectionKeepsPairing(messages: seq<Message>)
    ensures Declared(ProjectAll(messages)) == Declared(messages)
    ensures Answered(ProjectAll(messages)) == Answered(messages)
  {
    if messages != [] {
      var front := messages[..|messages| - 1];
      ProjectionKeepsPairing(front);
      assert ProjectAll(messages)[..|messages| - 1] == ProjectAll(front);
    }
  }

  lemma {:induction false} KeptCallIds(calls: seq<ToolCall>, valid: set<string>)
    ensures CallIds(KeptCalls(calls, valid)) == CallIds(calls) * valid
  {
    if calls != [] {
      var front, c := calls[..|calls| - 1], calls[|calls| - 1];
      KeptCallIds(front, valid);
      var kept := KeptCalls(front, valid);
      if c.ToolCall? && c.id in valid {
        assert KeptCalls(calls, valid) == kept + [c] && (kept + [c])[..|kept|] == kept;
      } else {
        assert KeptCalls(calls, valid) == kept;
      }
    }
  }

  lemma RepairOneIds(m: Message, valid: set<string>)
    ensures Declared(RepairOne(m, valid)) == DeclaredBy(m) * valid
    ensures Answered(RepairOne(m, valid)) == AnsweredBy(m) * valid
  {
    KeptCallIds(CallList(m), valid);
    var r := RepairOne(m, valid);
    if r != [] {
      assert r[..0] == [];
    }
  }

  lemma {:induction false} RepairKeepsMatched(messages: seq<Message>, valid: set<string>)
    ensures Declared(RepairAll(messages, valid)) == Declared(messages) * valid
    ensures Answered(RepairAll(messages, valid)) == Answered(messages) * valid
  {
    if messages != [] {
      var front, m := messages[..|messages| - 1], messages[|messages| - 1];
      RepairKeepsMatched(front, valid);
      RepairOneIds(m, valid);
      PairingOfConcat(RepairAll(front, valid), RepairOne(m, valid));
    }
  }

  /** Declared and answered ids of the result are both exactly the matched ids of the input. */
  lemma ViewIsPaired(messages: seq<Message>)
    ensures Declared(View(messages)) == Matched(messages)
    ensures Answered(View(messages)) == Matched(messages)
  {
    ProjectionKeepsPairing(Repaired(messages));
    if !Paired(messages) {
      RepairKeepsMatched(messages, Matched(messages));
    }
  }

  /** Repairing and projecting twice is doing it once. */
  lemma ViewIsIdempotent(messages: seq<Message>)
    ensures View(View(messages)) == View(messages)
  {
    ViewIsPaired(messages);
  }

  /** Whether a message survives: everything does when nothing is orphaned. */
  predicate Survives(m: Message, messages: seq<Message>) {
    Paired(messages) || RepairOne(m, Matched(messages)) != []
  }

  /** The positions of the survivors, in order. */
  function Survivors(messages: seq<Message>, n: nat): seq<nat>
    requires n <= |messages|
  {
    if n == 0 then []
    else Survivors(messages, n - 1) + (if Survives(messages[n - 1], messages) then [n - 1] else [])
  }

  lemma {:induction false} SurvivorsAreIncreasing(messages: seq<Message>, n: nat)
    requires n <= |messages|
    ensures Increasing(Survivors(messages, n), n)
  {
    if n > 0 {
      SurvivorsAreIncreasing(messages, n - 1);
      var picked := Survivors(messages, n - 1);
      assert Increasing(picked, n - 1);
      assert Increasing(picked + [n - 1], n);
    }
  }

  lemma {:induction false} SurvivorsAreExact(messages: seq<Message>, n: nat, i: nat)
    requires i < n <= |messages|
    ensures i in Survivors(messages, n) <==> Survives(messages[i], messages)
  {
    if i < n - 1 {
      SurvivorsAreExact(messages, n - 1, i);
    } else {
      SurvivorsAreIncreasing(messages, n - 1);
    }
  }

  /** What a survivor looks like: only unanswered calls and persistence metadata may be missing. */
  predicate ShrunkFrom(small: Message, m: Message, valid: set<string>) {
    && small.role == m.role && small.toolCallId == m.toolCallId && small.name == m.name
    && small.content == Project(m).content
    && (small.calls == m.calls || (m.role.Assistant? && CallList(small) == KeptCalls(CallList(m), valid)))
  }

  lemma {:induction false} RepairIsSelection(messages: seq<Message>, n: nat)
    requires n <= |messages| && !Paired(messages)
    ensures var picked := Survivors(messages, n); var out := RepairAll(messages[..n], Matched(messages));
      && |out| == |picked|
      && forall k | 0 <= k < |picked| :: picked[k] < n && ShrunkFrom(Project(out[k]), messages[picked[k]], Matched(messages))
  {
    if n > 0 {
      RepairIsSelection(messages, n - 1);
      assert messages[..n][..n - 1] == messages[..n - 1];
      var m, valid := messages[n - 1], Matched(messages);
      if RepairOne(m, valid) != [] {
        assert ShrunkFrom(Project(RepairOne(m, valid)[0]), m, valid);
      }
    }
  }

  lemma PairedIsSelection(messages: seq<Message>)
    requires Paired(messages)
    ensures var picked := Survivors(messages, |messages|); var out := View(messages);
      && |out| == |picked|
      && forall k | 0 <= k < |picked| :: picked[k] < |messages| && ShrunkFrom(out[k], messages[picked[k]], Matched(messages))
  {
    AllSurvive(messages, |messages|);
  }

  /** The view is a selection of projected messages in which calls may only lose unanswered entries. */
  lemma ViewIsSelection(messages: seq<Message>)
    ensures var picked := Survivors(messages, |messages|); var out := View(messages);
      && |out| == |picked|
      && forall k | 0 <= k < |picked| :: picked[k] < |messages| && ShrunkFrom(out[k], messages[picked[k]], Matched(messages))
  {
    if Paired(messages) {
      PairedIsSelection(messages);
    } else {
      RepairIsSelection(messages, |messages|);
      assert messages[..|messages|] == messages;
    }
  }

  /** The selection keeps the order, and only tool and assistant messages can go. */
  lemma SelectionKeepsOrder(messages: seq<Message>)
    ensures var picked := Survivors(messages, |messages|);
      && Increasing(picked, |messages|)
      && (forall i | 0 <= i < |messages| && !messages[i].role.Tool? && !messages[i].role.Assistant? :: i in picked)
  {
    SurvivorsAreIncreasing(messages, |messages|);
    forall i | 0 <= i < |messages| && !messages[i].role.Tool? && !messages[i].role.Assistant?
      ensures i in Survivors(messages, |messages|)
    {
      SurvivorsAreExact(messages, |messages|, i);
    }
  }

  lemma {:induction false} AllSurvive(messages: seq<Message>, n: nat)
    requires n <= |messages| && Paired(messages)
    ensures |Survivors(messages, n)| == n && forall k | 0 <= k < n :: Survivors(messages, n)[k] == k
  {
    if n > 0 {
      AllSurvive(messages, n - 1);
    }
  }

  lemma {:induction false} KeptCallsAreExact(calls: seq<ToolCall>, valid: set<string>) returns (at: seq<nat>)
    ensures StandAt(KeptCalls(calls, valid), calls, at)
    ensures forall i | 0 <= i < |calls| :: i in at <==> calls[i].ToolCall? && calls[i].id in valid
  {
    at := [];
    if calls != [] {
      var front, c := calls[..|calls| - 1], calls[|calls| - 1];
      at := KeptCallsAreExact(front, valid);
      StandAtExtends(KeptCalls(front, valid), front, at, c, c.ToolCall? && c.id in valid);
      at := at + if c.ToolCall? && c.id in valid then [|front|] else [];
      assert calls == front + [c];
    }
  }

  /**
    * With something orphaned, a tool message stays when its id is matched, an assistant message when it declares
    * no calls, has a matched one or says something, and every other message stays; otherwise everything does.
    */
  lemma WhatSurvives(messages: seq<Message>, i: nat)
    requires i < |messages|
    ensures var m, declared, answered := messages[i], Declared(messages), Answered(messages);
      i in Survivors(messages, |messages|) <==>
      || declared == answered
      || (m.role.Tool? && m.toolCallId.Some? && m.toolCallId.value != "" && m.toolCallId.value in declared * answered)
      || (m.role.Assistant? && (m.calls.None? || m.calls.value == []))
      || (m.role.Assistant? && exists c | c in m.calls.value :: c.ToolCall? && c.id in declared && c.id in answered)
      || (m.role.Assistant? && m.content.Text? && m.content.text != "")
      || !(m.role.Tool? || m.role.Assistant?)
  {
    var m, valid := messages[i], Matched(messages);
    SurvivorsAreExact(messages, |messages|, i);
    if m.role.Assistant? && m.calls.Some? {
      var at := KeptCallsAreExact(m.calls.value, valid);
      if c :| c in m.calls.value && c.ToolCall? && c.id in valid {
        var j :| 0 <= j < |m.calls.value| && m.calls.value[j] == c;
        assert j in at;
      }
      if KeptCalls(m.calls.value, valid) != [] {
        var c := m.calls.value[at[0]];
        assert c in m.calls.value && at[0] in at;
      }
    }
  }

  /** Survivors keep role, answered id, name and content, "" for a missing one; everything else of them goes. */
  lemma WhatSurvivorsSay(messages: seq<Message>, k: nat)
    requires k < |View(messages)|
    ensures var picked := Survivors(messages, |messages|);
      && k < |picked| && picked[k] < |messages|
      && var m, r := messages[picked[k]], View(messages)[k];
         && r.role == m.role && r.toolCallId == m.toolCallId && r.name == m.name && r.extra == map[]
         && r.content == (if m.content == NoContent then Text("") else m.content)
         && (!m.role.Assistant? || m.calls == None || m.calls == Some([]) || Declared(messages) == Answered(messages) ==>
               r.calls == m.calls)
  {
    ViewOfSurvivor(messages, k);
  }

  /** The k-th message of the view comes from the k-th survivor. */
  lemma ViewOfSurvivor(messages: seq<Message>, k: nat)
    requires k < |View(messages)|
    ensures var picked := Survivors(messages, |messages|);
      && |picked| == |View(messages)| && picked[k] < |messages|
      && var m := messages[picked[k]];
         if Paired(messages) then View(messages)[k] == Project(m)
         else RepairOne(m, Matched(messages)) != [] && View(messages)[k] == Project(RepairOne(m, Matched(messages))[0])
  {
    if Paired(messages) {
      AllSurvive(messages, |messages|);
    } else {
      assert messages[..|messages|] == messages;
      RepairedSurvivor(messages, |messages|, k);
    }
  }

  lemma {:induction false} RepairedSurvivor(messages: seq<Message>, n: nat, k: nat)
    requires n <= |messages| && !Paired(messages) && k < |RepairAll(messages[..n], Matched(messages))|
    ensures var picked, out := Survivors(messages, n), RepairAll(messages[..n], Matched(messages));
      && |out| == |picked| && picked[k] < n
      && RepairOne(messages[picked[k]], Matched(messages)) == [out[k]]
  {
    RepairIsSelection(messages, n);
    RepairIsSelection(messages, n - 1);
    assert messages[..n][..n - 1] == messages[..n - 1];
    if k < |Survivors(messages, n - 1)| {
      RepairedSurvivor(messages, n - 1, k);
    }
  }

  /** With something orphaned, a surviving assistant message keeps exactly its matched calls, in order, and no empty list. */
  lemma WhatSurvivorsCall(messages: seq<Message>, k: nat) returns (at: seq<nat>)
    requires k < |View(messages)| && Declared(messages) != Answered(messages)
    requires |Survivors(messages, |messages|)| == |View(messages)| && Survivors(messages, |messages|)[k] < |messages|
    requires var m := messages[Survivors(messages, |messages|)[k]]; m.role.Assistant? && m.calls.Some? && m.calls.value != []
    ensures var calls, r := messages[Survivors(messages, |messages|)[k]].calls.value, View(messages)[k];
      && StandAt(r.calls.GetOr([]), calls, at) && r.calls != Some([])
      && forall i | 0 <= i < |calls| :: i in at <==>
           calls[i].ToolCall? && calls[i].id in Declared(messages) && calls[i].id in Answered(messages)
  {
    ViewOfSurvivor(messages, k);
    at := KeptCallsAreExact(messages[Survivors(messages, |messages|)[k]].calls.value, Matched(messages));
  }

  /** No other list built from the same ids pairs more of them. */
  lemma ViewPairsTheMost(messages: seq<Message>, other: seq<Message>)
    requires Declared(other) <= Declared(messages) && Answered(other) <= Answered(messages)
    requires Paired(other)
    ensures Declared(other) <= Declared(View(messages))
  {
    ViewIsPaired(messages);
  }

  // ----- history normalisation -----

  /** Drops everything before the first user message, or nothing when there is none. */
  function FromFirstUser(messages: seq<Message>, i: nat): seq<Message>
    requires i <= |messages|
    decreases |messages| - i
  {
    if i == |messages| then messages
    else if messages[i].role.User? then messages[i..]
    else FromFirstUser(messages, i + 1)
  }

  method NormalizeHistory(messages: seq<Message>, maxMessages: int) returns (out: seq<Message>)
    ensures var kept := if 0 < maxMessages < |messages| then messages[|messages| - maxMessages..] else messages;
      out == View(FromFirstUser(kept, 0))
  {
    var sliced := if 0 < maxMessages < |messages| then messages[|messages| - maxMessages..] else messages;
    var i := 0;
    while i < |sliced| && !sliced[i].role.User?
      invariant i <= |sliced| && FromFirstUser(sliced, i) == FromFirstUser(sliced, 0)
    {
      i := i + 1;
    }
    if i < |sliced| {
      sliced := sliced[i..];
    }
    out := RepairAndProject(sliced);
  }

  /** Normalisation cuts off exactly what stands before the first user message. */
  lemma {:induction false} CutsToFirstUser(messages: seq<Message>, i: nat, first: nat)
    requires i <= first <= |messages| && forall k | i <= k < first :: messages[k].role != User
    ensures first < |messages| && messages[first].role == User ==> FromFirstUser(messages, i) == messages[first..]
    ensures first == |messages| ==> FromFirstUser(messages, i) == messages
    decreases |messages| - i
  {
    if i < first {
      CutsToFirstUser(messages, i + 1, first);
    }
  }

  /** After normalisation the first message is a user message whenever the window holds one, and ids pair up. */
  lemma NormalizedStartsWithUser(kept: seq<Message>)
    requires exists m :: m in kept && m.role.User?
    ensures var out := View(FromFirstUser(kept, 0)); out != [] && out[0].role.User? && Paired(out)
  {
    FirstUserIsFirst(kept, 0);
    var sliced := FromFirstUser(kept, 0);
    ViewIsPaired(sliced);
    LeadingUserStays(sliced);
  }

  lemma LeadingUserStays(messages: seq<Message>)
    requires messages != [] && messages[0].role.User?
    ensures View(messages) != [] && View(messages)[0].role.User?
  {
    var picked := Survivors(messages, |messages|);
    SurvivorsAreExact(messages, |messages|, 0);
    SurvivorsAreIncreasing(messages, |messages|);
    assert picked[0] == 0;
    ViewIsSelection(messages);
  }

  lemma {:induction false} FirstUserIsFirst(kept: seq<Message>, i: nat)
    requires i <= |kept| && exists m :: m in kept[i..] && m.role.User?
    ensures FromFirstUser(kept, i) != [] && FromFirstUser(kept, i)[0].role.User?
    decreases |kept| - i
  {
    if !kept[i].role.User? {
      var m :| m in kept[i..] && m.role.User?;
      assert m in kept[i + 1..];
      FirstUserIsFirst(kept, i + 1);
    }
  }
}
