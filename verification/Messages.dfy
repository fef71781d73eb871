/** Chat messages as they come off JSON decoding. */
module Messages {
  import opened Prelude

  datatype Role = System | User | Assistant | Tool | OtherRole(name: string)

  /** One entry of a content list: a JSON object with the fields the code looks at, or anything else. */
  datatype Part = Part(kind: string, text: Option<string>, imageUrl: Option<string>) | RawPart(json: string)

  /** `NoContent` is a message without the key, `OtherContent` a value that is neither string nor list. */
  datatype Content = NoContent | Text(text: string) | Parts(parts: seq<Part>) | OtherContent(json: string)

  /** One entry of `tool_calls`. A missing id or name is the empty string. */
  datatype ToolCall = ToolCall(id: string, name: string, arguments: Option<string>) | NotACall(json: string)

  datatype Message = Message(
    role: Role,
    content: Content,
    calls: Option<seq<ToolCall>>,
    toolCallId: Option<string>,
    name: Option<string>,
    extra: map<string, string>)

  function CallList(m: Message): seq<ToolCall> {
    m.calls.GetOr([])
  }

  predicate DeclaresCalls(m: Message) {
    m.role.Assistant? && CallList(m) != []
  }

  function TextOf(m: Message): string {
    if m.content.Text? then m.content.text else ""
  }

  /** The non-empty ids in a list of calls. */
  function CallIds(calls: seq<ToolCall>): set<string> {
    if calls == [] then {} else CallIds(calls[..|calls| - 1]) + CallId(calls[|calls| - 1])
  }

  function CallId(c: ToolCall): set<string> {
    if c.ToolCall? && c.id != "" then {c.id} else {}
  }

  function DeclaredBy(m: Message): set<string> {
    if m.role.Assistant? then CallIds(CallList(m)) else {}
  }

  function AnsweredBy(m: Message): set<string> {
    if m.role.Tool? && m.toolCallId.Some? && m.toolCallId.value != "" then {m.toolCallId.value} else {}
  }

  /** The non-empty call ids that some assistant message declares. */
  function Declared(messages: seq<Message>): set<string> {
    if messages == [] then {}
    else Declared(messages[..|messages| - 1]) + DeclaredBy(messages[|messages| - 1])
  }

  /** The non-empty call ids that some tool message answers. */
  function Answered(messages: seq<Message>): set<string> {
    if messages == [] then {}
    else Answered(messages[..|messages| - 1]) + AnsweredBy(messages[|messages| - 1])
  }

  lemma {:induction false} PairingOfConcat(a: seq<Message>, b: seq<Message>)
    ensures Declared(a + b) == Declared(a) + Declared(b)
    ensures Answered(a + b) == Answered(a) + Answered(b)
  {
    if b == [] {
      assert a + b == a;
    } else {
      var b' := b[..|b| - 1];
      PairingOfConcat(a, b');
      assert (a + b)[..|a + b| - 1] == a + b';
    }
  }

  lemma {:induction false} PairingMembers(messages: seq<Message>)
    ensures forall m | m in messages :: DeclaredBy(m) <= Declared(messages) && AnsweredBy(m) <= Answered(messages)
    ensures forall id | id in Declared(messages) :: exists m :: m in messages && id in DeclaredBy(m)
    ensures forall id | id in Answered(messages) :: exists m :: m in messages && id in AnsweredBy(m)
  {
    if messages != [] {
      var front, last := messages[..|messages| - 1], messages[|messages| - 1];
      PairingMembers(front);
      assert messages == front + [last];
      forall id | id in Declared(messages) ensures exists m :: m in messages && id in DeclaredBy(m) {
        if id in Declared(front) {
          var m :| m in front && id in DeclaredBy(m);
          assert m in messages;
        } else {
          assert last in messages;
        }
      }
      forall id | id in Answered(messages) ensures exists m :: m in messages && id in AnsweredBy(m) {
        if id in Answered(front) {
          var m :| m in front && id in AnsweredBy(m);
          assert m in messages;
        } else {
          assert last in messages;
        }
      }
    }
  }

  lemma {:induction false} CallIdsAreExact(calls: seq<ToolCall>, id: string)
    ensures id in CallIds(calls) <==> id != "" && exists c | c in calls :: c.ToolCall? && c.id == id
  {
    if calls != [] {
      CallIdsAreExact(calls[..|calls| - 1], id);
      assert calls == calls[..|calls| - 1] + [calls[|calls| - 1]];
    }
  }

  /** Which ids count as declared and as answered. */
  lemma PairingIsExact(messages: seq<Message>, id: string)
    ensures id in Declared(messages) <==>
            id != "" && exists m, c :: m in messages && m.role.Assistant? && m.calls.Some? && c in m.calls.value
                                       && c.ToolCall? && c.id == id
    ensures id in Answered(messages) <==>
            id != "" && exists m :: m in messages && m.role.Tool? && m.toolCallId == Some(id)
  {
    PairingMembers(messages);
    if id in Declared(messages) {
      var m :| m in messages && id in DeclaredBy(m);
      CallIdsAreExact(CallList(m), id);
    }
    if m, c :| m in messages && m.role.Assistant? && m.calls.Some? && c in m.calls.value && c.ToolCall? && c.id == id {
      CallIdsAreExact(CallList(m), id);
      assert id != "" ==> id in DeclaredBy(m);
    }
    if m :| m in messages && m.role.Tool? && m.toolCallId == Some(id) {
      assert id != "" ==> id in AnsweredBy(m);
    }
  }
}
