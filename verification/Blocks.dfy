/** The shape of a transcript: assistant messages with calls are followed at once by their answers. */
module Blocks {
  import opened Prelude
  import opened Messages
  import opened Repair

  /** How many messages a block starting with `m` takes. */
  function BlockLength(m: Message): nat {
    1 + if DeclaresCalls(m) then |CallList(m)| else 0
  }

  /** `answers` are tool messages that answer `calls` one by one, in order. */
  predicate Answers(calls: seq<ToolCall>, answers: seq<Message>) {
    && |answers| == |calls|
    && forall j | 0 <= j < |calls| ::
         && calls[j].ToolCall?
         && answers[j].role.Tool?
         && answers[j].toolCallId == Some(calls[j].id)
  }

  predicate IsBlock(messages: seq<Message>) {
    && messages != []
    && !messages[0].role.Tool?
    && |messages| == BlockLength(messages[0])
    && (DeclaresCalls(messages[0]) ==> Answers(CallList(messages[0]), messages[1..]))
  }

  /** A whole number of blocks. */
  predicate Complete(messages: seq<Message>) {
    messages == [] ||
    var n := BlockLength(messages[0]);
    n <= |messages| && IsBlock(messages[..n]) && Complete(messages[n..])
  }

  /** One round of the agent loop: an answered call block, or a plain reply with at most one user nudge. */
  predicate IsRound(messages: seq<Message>) {
    && messages != [] && messages[0].role.Assistant?
    && (IsBlock(messages) || IsNudgedReply(messages))
  }

  predicate IsNudgedReply(messages: seq<Message>) {
    |messages| == 2 && messages[0].role.Assistant? && !DeclaresCalls(messages[0]) && messages[1].role.User?
  }

  /** How many messages the first round takes. */
  function RoundLength(messages: seq<Message>): nat
    requires messages != []
  {
    if |messages| >= 2 && IsNudgedReply(messages[..2]) then 2 else BlockLength(messages[0])
  }

  /** The messages an agent loop run appends: rounds, one after the other. */
  predicate Rounds(messages: seq<Message>) {
    messages == [] ||
    var n := RoundLength(messages);
    n <= |messages| && IsRound(messages[..n]) && Rounds(messages[n..])
  }

  // ----- composing transcripts -----

  lemma {:induction false} CompleteConcat(a: seq<Message>, b: seq<Message>)
    requires Complete(a) && Complete(b)
    ensures Complete(a + b)
  {
    if a == [] {
      assert a + b == b;
    } else {
      var n := BlockLength(a[0]);
      CompleteConcat(a[n..], b);
      assert (a + b)[..n] == a[..n] && (a + b)[n..] == a[n..] + b;
    }
  }

  lemma {:induction false} CompleteRemainder(a: seq<Message>, b: seq<Message>)
    requires Complete(a) && Complete(a + b)
    ensures Complete(b)
  {
    if a == [] {
      assert a + b == b;
    } else {
      var n := BlockLength(a[0]);
      assert (a + b)[..n] == a[..n] && (a + b)[n..] == a[n..] + b;
      CompleteRemainder(a[n..], b);
    }
  }

  lemma BlockIsComplete(block: seq<Message>)
    requires IsBlock(block)
    ensures Complete(block)
  {
    assert block[..|block|] == block && block[|block|..] == [];
  }

  lemma PlainIsComplete(m: Message)
    requires !m.role.Tool? && !DeclaresCalls(m)
    ensures Complete([m])
  {
    BlockIsComplete([m]);
  }

  lemma {:induction false} RoundsExtend(a: seq<Message>, round: seq<Message>)
    requires Rounds(a) && IsRound(round)
    ensures Rounds(a + round)
  {
    if a == [] {
      assert a + round == round && round[|round|..] == [] && round[..|round|] == round;
      assert RoundLength(round) == |round|;
    } else {
      var n := RoundLength(a);
      RoundsExtend(a[n..], round);
      assert (a + round)[..n] == a[..n] && (a + round)[n..] == a[n..] + round;
      assert RoundLength(a + round) == n by {
        if |a| >= 2 {
          assert (a + round)[..2] == a[..2];
        } else {
          assert (a + round)[1] == round[0];
        }
      }
    }
  }

  lemma RoundIsComplete(round: seq<Message>)
    requires IsRound(round)
    ensures Complete(round)
  {
    if IsBlock(round) {
      BlockIsComplete(round);
    } else {
      PlainIsComplete(round[0]);
      PlainIsComplete(round[1]);
      CompleteConcat([round[0]], [round[1]]);
      assert round == [round[0]] + [round[1]];
    }
  }

  lemma {:induction false} RoundsAreComplete(messages: seq<Message>)
    requires Rounds(messages)
    ensures Complete(messages)
  {
    if messages != [] {
      var n := RoundLength(messages);
      RoundIsComplete(messages[..n]);
      RoundsAreComplete(messages[n..]);
      CompleteConcat(messages[..n], messages[n..]);
      assert messages == messages[..n] + messages[n..];
    }
  }

  predicate LinkedAlike(a: Message, b: Message) {
    a.role == b.role && a.calls == b.calls && a.toolCallId == b.toolCallId
  }

  /** Completeness is decided by roles, calls and answered ids alone. */
  lemma {:induction false} LinksDecide(a: seq<Message>, b: seq<Message>)
    requires Complete(a) && |a| == |b| && forall i | 0 <= i < |a| :: LinkedAlike(a[i], b[i])
    ensures Complete(b)
  {
    if a != [] {
      var n := BlockLength(a[0]);
      assert LinkedAlike(a[0], b[0]) && a[..n][0] == a[0];
      if DeclaresCalls(a[0]) {
        var calls := CallList(a[0]);
        forall j | 0 <= j < |calls| ensures b[..n][1..][j].role.Tool? && b[..n][1..][j].toolCallId == Some(calls[j].id) {
          assert a[..n][1..][j] == a[j + 1] && b[..n][1..][j] == b[j + 1];
          assert LinkedAlike(a[j + 1], b[j + 1]);
        }
      }
      assert IsBlock(b[..n]);
      LinksDecide(a[n..], b[n..]);
    }
  }

  // ----- complete transcripts pair up -----

  lemma {:induction false} AnswersPair(calls: seq<ToolCall>, answers: seq<Message>)
    requires Answers(calls, answers)
    ensures Answered(answers) == CallIds(calls) && Declared(answers) == {}
  {
    if calls != [] {
      AnswersPair(calls[..|calls| - 1], answers[..|calls| - 1]);
    }
  }

  lemma BlockPairs(block: seq<Message>)
    requires IsBlock(block)
    ensures Paired(block)
  {
    var head, rest := block[0], block[1..];
    assert block == [head] + rest;
    PairingOfConcat([head], rest);
    assert [head][..0] == [];
    if DeclaresCalls(head) {
      AnswersPair(CallList(head), rest);
    } else {
      assert rest == [];
      assert head.role.Assistant? ==> CallIds(CallList(head)) == {};
    }
  }

  /** In a complete transcript nothing is orphaned. */
  lemma {:induction false} CompletePairs(messages: seq<Message>)
    requires Complete(messages)
    ensures Paired(messages)
  {
    if messages != [] {
      var n := BlockLength(messages[0]);
      BlockPairs(messages[..n]);
      CompletePairs(messages[n..]);
      PairingOfConcat(messages[..n], messages[n..]);
      assert messages == messages[..n] + messages[n..];
    }
  }

  // ----- safe cuts -----

  /** The test of the boundary repair at position `i`: not a tool message, and not right after an assistant with calls. */
  predicate SafeCut(messages: seq<Message>, i: nat)
    requires i <= |messages|
  {
    i == |messages| || (!messages[i].role.Tool? && (i > 0 ==> !DeclaresCalls(messages[i - 1])))
  }

  /** In a complete transcript a safe cut never falls inside a block, and every block start is a safe cut. */
  lemma {:induction false} SafeCutsAreBlockBounds(messages: seq<Message>, i: nat)
    requires Complete(messages) && i <= |messages|
    ensures SafeCut(messages, i) <==> Complete(messages[..i])
    ensures SafeCut(messages, i) ==> Complete(messages[i..])
    decreases |messages|
  {
    if i == 0 {
      assert messages[..0] == [] && messages[0..] == messages;
    } else {
      var n := BlockLength(messages[0]);
      var block, rest := messages[..n], messages[n..];
      if i < n {
        InsideABlock(messages, i);
      } else {
        SafeCutsAreBlockBounds(rest, i - n);
        assert messages[..i] == block + rest[..i - n];
        assert messages[i..] == rest[i - n..];
        assert messages[..i][..n] == block && messages[..i][n..] == rest[..i - n];
        assert i > n ==> messages[i - 1] == rest[i - n - 1];
        assert i < |messages| ==> messages[i] == rest[i - n];
        if i == n < |messages| {
          LastOfBlock(block);
          assert messages[n - 1] == block[n - 1];
          assert rest[0] == messages[n];
        }
      }
    }
  }

  lemma InsideABlock(messages: seq<Message>, i: nat)
    requires Complete(messages) && messages != [] && 0 < i < BlockLength(messages[0])
    ensures i < |messages| && messages[i].role.Tool? && !Complete(messages[..i])
  {
    var block := messages[..BlockLength(messages[0])];
    assert block[1..][i - 1].role.Tool?;
    assert block[i] == block[1..][i - 1];
    assert messages[..i][0] == messages[0];
  }

  lemma LastOfBlock(block: seq<Message>)
    requires IsBlock(block)
    ensures !DeclaresCalls(block[|block| - 1])
  {
    if |block| > 1 {
      assert block[1..][|block| - 2].role.Tool?;
    }
  }

  /** The least safe cut at or after `i`. */
  function NextSafeCut(messages: seq<Message>, i: nat): (cut: nat)
    requires i <= |messages|
    ensures i <= cut <= |messages|
    ensures SafeCut(messages, cut)
    ensures forall j | i <= j < cut :: !SafeCut(messages, j)
    decreases |messages| - i
  {
    if SafeCut(messages, i) then i else NextSafeCut(messages, i + 1)
  }

  /** In a complete transcript only tool messages lie between a position and its next safe cut. */
  lemma {:induction false} UnsafeCutsAreAnswers(messages: seq<Message>, i: nat)
    requires Complete(messages) && i < |messages| && !SafeCut(messages, i)
    ensures messages[i].role.Tool?
    decreases |messages|
  {
    var n := BlockLength(messages[0]);
    if i == 0 {
    } else if i < n {
      InsideABlock(messages, i);
    } else {
      var block, rest := messages[..n], messages[n..];
      LastOfBlock(block);
      assert messages[n - 1] == block[n - 1] && messages[i] == rest[i - n];
      if i > n {
        assert messages[i - 1] == rest[i - n - 1];
      }
      UnsafeCutsAreAnswers(rest, i - n);
    }
  }

  // ----- message-wise rewriting -----

  /** Rewrites every message to some messages; `f` also gets the position, counted from `tick`. */
  function Rewrite(messages: seq<Message>, f: (nat, Message) -> seq<Message>, tick: nat): seq<Message> {
    if messages == [] then []
    else
      var n := |messages| - 1;
      Rewrite(messages[..n], f, tick) + f(tick + n, messages[n])
  }

  /** `f` keeps or drops a message without touching its links, and never drops a call or an answer. */
  ghost predicate KeepsLinks(f: (nat, Message) -> seq<Message>) {
    forall i: nat, m: Message ::
      && |f(i, m)| <= 1
      && (f(i, m) != [] ==> LinkedAlike(f(i, m)[0], m))
      && (m.role.Tool? || DeclaresCalls(m) ==> f(i, m) != [])
  }

  lemma {:induction false} RewriteConcat(a: seq<Message>, b: seq<Message>, f: (nat, Message) -> seq<Message>, tick: nat)
    ensures Rewrite(a + b, f, tick) == Rewrite(a, f, tick) + Rewrite(b, f, tick + |a|)
  {
    if b == [] {
      assert a + b == a;
    } else {
      var n := |b| - 1;
      var last := f(tick + |a| + n, b[n]);
      assert (a + b)[..|a| + n] == a + b[..n] && (a + b)[|a| + n] == b[n];
      calc {
        Rewrite(a + b, f, tick);
        Rewrite(a + b[..n], f, tick) + last;
        { RewriteConcat(a, b[..n], f, tick); }
        (Rewrite(a, f, tick) + Rewrite(b[..n], f, tick + |a|)) + last;
        Rewrite(a, f, tick) + (Rewrite(b[..n], f, tick + |a|) + last);
      }
    }
  }

  lemma RewriteOne(m: Message, f: (nat, Message) -> seq<Message>, tick: nat)
    ensures Rewrite([m], f, tick) == f(tick, m)
  {
    assert [m][..0] == [];
  }

  lemma {:induction false} RewriteAnswers(calls: seq<ToolCall>, answers: seq<Message>,
                                          f: (nat, Message) -> seq<Message>, tick: nat)
    requires KeepsLinks(f) && Answers(calls, answers)
    ensures Answers(calls, Rewrite(answers, f, tick))
  {
    if answers != [] {
      var n := |answers| - 1;
      RewriteAnswers(calls[..n], answers[..n], f, tick);
      assert f(tick + n, answers[n]) != [];
    }
  }

  lemma RewriteCallBlock(head: Message, answers: seq<Message>, f: (nat, Message) -> seq<Message>, tick: nat)
    requires KeepsLinks(f) && DeclaresCalls(head) && Answers(CallList(head), answers)
    ensures Complete(f(tick, head) + Rewrite(answers, f, tick + 1))
  {
    RewriteAnswers(CallList(head), answers, f, tick + 1);
    var kept, rest := f(tick, head)[0], Rewrite(answers, f, tick + 1);
    assert f(tick, head) == [kept] && ([kept] + rest)[1..] == rest;
    BlockIsComplete([kept] + rest);
  }

  lemma RewritePlain(m: Message, f: (nat, Message) -> seq<Message>, tick: nat)
    requires KeepsLinks(f) && !DeclaresCalls(m) && !m.role.Tool?
    ensures Complete(Rewrite([m], f, tick))
  {
    RewriteOne(m, f, tick);
    if f(tick, m) != [] {
      PlainIsComplete(f(tick, m)[0]);
      assert f(tick, m) == [f(tick, m)[0]];
    }
  }

  lemma RewriteHeaded(head: Message, answers: seq<Message>, f: (nat, Message) -> seq<Message>, tick: nat)
    ensures Rewrite([head] + answers, f, tick) == f(tick, head) + Rewrite(answers, f, tick + 1)
  {
    RewriteOne(head, f, tick);
    RewriteConcat([head], answers, f, tick);
  }

  lemma RewriteBlock(block: seq<Message>, f: (nat, Message) -> seq<Message>, tick: nat)
    requires KeepsLinks(f) && IsBlock(block)
    ensures Complete(Rewrite(block, f, tick))
  {
    var head, answers := block[0], block[1..];
    assert block == [head] + answers;
    if DeclaresCalls(head) {
      RewriteCallBlock(head, answers, f, tick);
      RewriteHeaded(head, answers, f, tick);
    } else {
      assert block == [head];
      RewritePlain(head, f, tick);
    }
  }

  /** Rewriting that keeps links keeps a complete transcript complete. */
  lemma {:induction false} RewriteKeepsBlocks(messages: seq<Message>, f: (nat, Message) -> seq<Message>, tick: nat)
    requires KeepsLinks(f) && Complete(messages)
    ensures Complete(Rewrite(messages, f, tick))
    decreases |messages|
  {
    if messages != [] {
      var n := BlockLength(messages[0]);
      var block, rest := messages[..n], messages[n..];
      RewriteBlock(block, f, tick);
      RewriteKeepsBlocks(rest, f, tick + n);
      RewriteParts(block, rest, f, tick);
      assert messages == block + rest;
    }
  }

  lemma RewriteParts(a: seq<Message>, b: seq<Message>, f: (nat, Message) -> seq<Message>, tick: nat)
    requires Complete(Rewrite(a, f, tick)) && Complete(Rewrite(b, f, tick + |a|))
    ensures Complete(Rewrite(a + b, f, tick))
  {
    RewriteConcat(a, b, f, tick);
    CompleteConcat(Rewrite(a, f, tick), Rewrite(b, f, tick + |a|));
  }
}
