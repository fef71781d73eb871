/** Assembling a model response from server-sent events, and from one whole completion. */
module Streaming {
  import opened Prelude

  const DATA := "data:"
  const DONE := "[DONE]"

  // ----- what arrives -----

  datatype UsageReport = UsageReport(prompt: int, completion: int, total: int, cached: Option<int>)

  /** One entry of a tool_calls list; absent and ill-typed fields are None. */
  datatype CallPart = CallPart(index: int, id: Option<string>, name: Option<string>, args: Option<string>)

  /** The delta of a streamed choice, or the message of a whole one; entries that are not objects are None. */
  datatype Choice = Choice(content: Option<string>, reasoning: Option<string>, calls: seq<Option<CallPart>>,
                           finish: Option<string>)

  datatype Chunk = Chunk(usage: Option<UsageReport>, choices: seq<Option<Choice>>)

  /** JSON decoding of a payload, None when it fails. */
  type Decoder = string -> Option<Chunk>

  datatype Meaning = Ignored | Finished | Payload(chunk: Chunk)

  function MeaningOf(decode: Decoder, line: string): Meaning {
    if line == "" || !HasPrefix(line, DATA) then Ignored
    else
      var payload := TrimSpace(line[|DATA|..]);
      if payload == DONE then Finished
      else match decode(payload)
           case None => Ignored
           case Some(chunk) => Payload(chunk)
  }

  // ----- the accumulated state -----

  datatype Slot = Slot(id: string, name: string, args: string)

  datatype Parts = Parts(content: seq<string>, reasoning: seq<string>, slots: map<int, Slot>, finish: string,
                         usage: map<string, int>)

  const NOTHING := Parts([], [], map[], "stop", map[])

  function Reported(usage: map<string, int>, report: UsageReport): map<string, int> {
    var counts := usage["prompt_tokens" := report.prompt]
                       ["completion_tokens" := report.completion]["total_tokens" := report.total];
    if report.cached.Some? then counts["cached_tokens" := report.cached.value] else counts
  }

  function ReportedIfAny(usage: map<string, int>, report: Option<UsageReport>): map<string, int> {
    if report.Some? then Reported(usage, report.value) else usage
  }

  function WithPart(parts: seq<string>, part: Option<string>): seq<string> {
    if part.GetOr("") == "" then parts else parts + [part.value]
  }

  function Latest(earlier: string, later: Option<string>): string {
    if later.GetOr("") == "" then earlier else later.value
  }

  function TakeCall(slots: map<int, Slot>, d: CallPart): map<int, Slot> {
    var slot := if d.index in slots then slots[d.index] else Slot("", "", "");
    slots[d.index := Slot(Latest(slot.id, d.id), Latest(slot.name, d.name), slot.args + d.args.GetOr(""))]
  }

  function TakeCalls(slots: map<int, Slot>, calls: seq<Option<CallPart>>): map<int, Slot> {
    if calls == [] then slots
    else
      var front := TakeCalls(slots, calls[..|calls| - 1]);
      match calls[|calls| - 1]
      case None => front
      case Some(d) => TakeCall(front, d)
  }

  function TakeChoice(p: Parts, c: Choice): Parts {
    Parts(WithPart(p.content, c.content), WithPart(p.reasoning, c.reasoning), TakeCalls(p.slots, c.calls),
          Latest(p.finish, c.finish), p.usage)
  }

  function TakeChoices(p: Parts, choices: seq<Option<Choice>>): Parts {
    if choices == [] then p
    else
      var front := TakeChoices(p, choices[..|choices| - 1]);
      match choices[|choices| - 1]
      case None => front
      case Some(c) => TakeChoice(front, c)
  }

  function TakeChunk(p: Parts, chunk: Chunk): Parts {
    TakeChoices(p.(usage := ReportedIfAny(p.usage, chunk.usage)), chunk.choices)
  }

  function TakeChunks(chunks: seq<Chunk>): Parts {
    if chunks == [] then NOTHING else TakeChunk(TakeChunks(chunks[..|chunks| - 1]), chunks[|chunks| - 1])
  }

  /** The decoded chunks before the end mark. */
  function Payloads(decode: Decoder, lines: seq<string>): seq<Chunk> {
    if lines == [] then []
    else
      var front := lines[..|lines| - 1];
      match MeaningOf(decode, lines[|lines| - 1])
      case Payload(chunk) => if Ended(decode, front) then Payloads(decode, front) else Payloads(decode, front) + [chunk]
      case _ => Payloads(decode, front)
  }

  predicate Ended(decode: Decoder, lines: seq<string>) {
    exists i | 0 <= i < |lines| :: MeaningOf(decode, lines[i]).Finished?
  }

  // ----- the response -----

  /** A call; the id is None when a fresh one is minted. */
  datatype CallRequest = CallRequest(id: Option<string>, name: string, rawArguments: string)

  datatype Response = Response(content: Option<string>, calls: seq<CallRequest>, finish: string,
                               usage: map<string, int>, reasoning: Option<string>)

  function NonEmpty(s: string): Option<string> {
    if s == "" then None else Some(s)
  }

  function RequestOf(slot: Slot): CallRequest {
    CallRequest(NonEmpty(slot.id), slot.name, slot.args)
  }

  function Named(slots: map<int, Slot>): set<int> {
    set i | i in slots && slots[i].name != ""
  }

  predicate Ascending(order: seq<int>) {
    forall i, j | 0 <= i < j < |order| :: order[i] < order[j]
  }

  predicate Orders(order: seq<int>, keys: set<int>) {
    Ascending(order) && (forall i | 0 <= i < |order| :: order[i] in keys) && (forall k | k in keys :: k in order)
  }

  function Requests(slots: map<int, Slot>, order: seq<int>): seq<CallRequest> {
    if order == [] then []
    else
      var last := order[|order| - 1];
      Requests(slots, order[..|order| - 1]) + (if last in slots then [RequestOf(slots[last])] else [])
  }

  /** The response that the parts stand for: named slots in ascending index order. */
  ghost predicate Builds(p: Parts, r: Response) {
    && r.content == NonEmpty(Concat(p.content)) && r.reasoning == NonEmpty(Concat(p.reasoning))
    && r.finish == (if p.finish == "" then "stop" else p.finish) && r.usage == p.usage
    && exists order :: Orders(order, Named(p.slots)) && r.calls == Requests(p.slots, order)
  }

  // ----- the assembler -----

  /** The variables that a response is assembled in, line by line or from one body. */
  class Assembler {
    const decode: Decoder
    var contentParts: seq<string>
    var reasoningParts: seq<string>
    var toolSlots: map<int, Slot>
    var finishReason: string
    var usage: map<string, int>

    constructor (decode: Decoder)
      ensures this.decode == decode && Value() == NOTHING
    {
      this.decode := decode;
      contentParts, reasoningParts, toolSlots, finishReason, usage := [], [], map[], "stop", map[];
    }

    function Value(): Parts
      reads this
    {
      Parts(contentParts, reasoningParts, toolSlots, finishReason, usage)
    }

    method Report(report: Option<UsageReport>)
      modifies this`usage
      ensures usage == ReportedIfAny(old(usage), report)
    {
      if report.Some? {
        usage := usage["prompt_tokens" := report.value.prompt];
        usage := usage["completion_tokens" := report.value.completion];
        usage := usage["total_tokens" := report.value.total];
        if report.value.cached.Some? {
          usage := usage["cached_tokens" := report.value.cached.value];
        }
      }
    }

    method AddText(content: Option<string>, reasoning: Option<string>)
      modifies this`contentParts, this`reasoningParts
      ensures contentParts == WithPart(old(contentParts), content) && reasoningParts == WithPart(old(reasoningParts), reasoning)
    {
      if content.Some? && content.value != "" {
        contentParts := contentParts + [content.value];
      }
      if reasoning.Some? && reasoning.value != "" {
        reasoningParts := reasoningParts + [reasoning.value];
      }
    }

    method Finish(finish: Option<string>)
      modifies this`finishReason
      ensures finishReason == Latest(old(finishReason), finish)
    {
      if finish.Some? && finish.value != "" {
        finishReason := finish.value;
      }
    }

    method AddCall(d: CallPart)
      modifies this`toolSlots
      ensures toolSlots == TakeCall(old(toolSlots), d)
    {
      var slot := Slot("", "", "");
      if d.index in toolSlots {
        slot := toolSlots[d.index];
      }
      assert slot.args + "" == slot.args;
      if d.id.Some? && d.id.value != "" {
        slot := slot.(id := d.id.value);
      }
      if d.name.Some? && d.name.value != "" {
        slot := slot.(name := d.name.value);
      }
      if d.args.Some? {
        slot := slot.(args := slot.args + d.args.value);
      }
      toolSlots := toolSlots[d.index := slot];
    }

    method AddCalls(calls: seq<Option<CallPart>>)
      modifies this`toolSlots
      ensures toolSlots == TakeCalls(old(toolSlots), calls)
    {
      for i := 0 to |calls|
        invariant toolSlots == TakeCalls(old(toolSlots), calls[..i])
      {
        assert calls[..i + 1][..i] == calls[..i];
        if calls[i].Some? {
          AddCall(calls[i].value);
        }
      }
      assert calls[..|calls|] == calls;
    }

    method AddChoices(choices: seq<Option<Choice>>)
      modifies this`contentParts, this`reasoningParts, this`toolSlots, this`finishReason
      ensures Value() == TakeChoices(old(Value()), choices)
    {
      for i := 0 to |choices|
        invariant Value() == TakeChoices(old(Value()), choices[..i])
      {
        assert choices[..i + 1][..i] == choices[..i];
        if choices[i].Some? {
          var c := choices[i].value;
          AddText(c.content, c.reasoning);
          AddCalls(c.calls);
          Finish(c.finish);
        }
      }
      assert choices[..|choices|] == choices;
    }

    /** True on the end mark. */
    method ProcessLine(line: string) returns (finished: bool)
      modifies this
      ensures finished <==> MeaningOf(decode, line).Finished?
      ensures Value() == match MeaningOf(decode, line)
                         case Payload(chunk) => TakeChunk(old(Value()), chunk)
                         case _ => old(Value())
    {
      if line == "" || !HasPrefix(line, DATA) {
        return false;
      }
      var payload := TrimSpace(line[|DATA|..]);
      if payload == DONE {
        return true;
      }
      var chunk := decode(payload);
      if chunk.Some? {
        Report(chunk.value.usage);
        AddChoices(chunk.value.choices);
      }
      finished := false;
    }

    /** The calls of a whole message, one slot per position. */
    method AddWholeCalls(calls: seq<Option<CallPart>>)
      modifies this`toolSlots
      ensures toolSlots == TakeWholeCalls(old(toolSlots), calls)
    {
      for i := 0 to |calls|
        invariant toolSlots == TakeWholeCalls(old(toolSlots), calls[..i])
      {
        assert calls[..i + 1][..i] == calls[..i];
        if calls[i].Some? {
          var slot := Slot("", "", "");
          if calls[i].value.id.Some? {
            slot := slot.(id := calls[i].value.id.value);
          }
          if calls[i].value.name.Some? {
            slot := slot.(name := calls[i].value.name.value);
          }
          if calls[i].value.args.Some? {
            slot := slot.(args := calls[i].value.args.value);
          }
          toolSlots := toolSlots[i := slot];
        }
      }
      assert calls[..|calls|] == calls;
    }

    method AddBody(body: Chunk)
      modifies this
      ensures Value() == TakeBody(old(Value()), body)
    {
      Report(body.usage);
      ghost var before := Value();
      for i := 0 to |body.choices|
        invariant Value() == TakeMessages(before, body.choices[..i])
      {
        assert body.choices[..i + 1][..i] == body.choices[..i];
        if body.choices[i].Some? {
          var c := body.choices[i].value;
          AddText(c.content, c.reasoning);
          AddWholeCalls(c.calls);
          Finish(c.finish);
        }
      }
      assert body.choices[..|body.choices|] == body.choices;
    }

    method BuildResponse() returns (r: Response)
      ensures Builds(Value(), r)
    {
      var content, reasoning := None, None;
      var joined := Join(contentParts);
      if joined != "" {
        content := Some(joined);
      }
      joined := Join(reasoningParts);
      if joined != "" {
        reasoning := Some(joined);
      }
      var calls := BuildCalls(toolSlots);
      r := Response(content, calls, if finishReason == "" then "stop" else finishReason, usage, reasoning);
    }
  }

  method Join(parts: seq<string>) returns (joined: string)
    ensures joined == Concat(parts)
  {
    joined := "";
    for i := 0 to |parts|
      invariant joined == Concat(parts[..i])
    {
      assert parts[..i + 1][..i] == parts[..i];
      joined := joined + parts[i];
    }
    assert parts[..|parts|] == parts;
  }

  method SortedIndices(keys: set<int>) returns (order: seq<int>)
    ensures Orders(order, keys)
  {
    order := [];
    var rest := keys;
    while rest != {}
      invariant rest <= keys && Orders(order, keys - rest)
      invariant forall i, k | 0 <= i < |order| && k in rest :: order[i] < k
      decreases |rest|
    {
      var least := LeastOf(rest);
      order := order + [least];
      rest := rest - {least};
    }
    assert keys - rest == keys;
  }

  method AnyOf<T>(keys: set<T>) returns (k: T)
    requires keys != {}
    ensures k in keys
  {
    k :| k in keys;
  }

  method LeastOf(keys: set<int>) returns (least: int)
    requires keys != {}
    ensures least in keys && forall k | k in keys :: least <= k
  {
    least := AnyOf(keys);
    var rest := keys - {least};
    while rest != {}
      invariant rest <= keys && least in keys
      invariant forall k | k in keys :: k in rest || least <= k
      decreases |rest|
    {
      var k := AnyOf(rest);
      rest := rest - {k};
      if k < least {
        least := k;
      }
    }
  }

  function NamedOf(slots: map<int, Slot>, indices: seq<int>): seq<int> {
    if indices == [] then []
    else
      var last := indices[|indices| - 1];
      NamedOf(slots, indices[..|indices| - 1]) + (if last in slots && slots[last].name != "" then [last] else [])
  }

  method BuildCalls(slots: map<int, Slot>) returns (calls: seq<CallRequest>)
    ensures exists order :: Orders(order, Named(slots)) && calls == Requests(slots, order)
  {
    var indices := SortedIndices(slots.Keys);
    calls := [];
    for i := 0 to |indices|
      invariant calls == Requests(slots, NamedOf(slots, indices[..i]))
    {
      var slot := slots[indices[i]];
      assert indices[..i + 1][..i] == indices[..i];
      ghost var order := NamedOf(slots, indices[..i]);
      if slot.name == "" {
        assert NamedOf(slots, indices[..i + 1]) == order;
      } else {
        assert (order + [indices[i]])[..|order|] == order;
        calls := calls + [CallRequest(if slot.id == "" then None else Some(slot.id), slot.name, slot.args)];
      }
    }
    assert indices[..|indices|] == indices;
    NamedOrders(slots, indices);
  }

  lemma {:induction false} NamedMember(slots: map<int, Slot>, indices: seq<int>, k: int)
    ensures k in NamedOf(slots, indices) <==> k in indices && k in Named(slots)
  {
    if indices != [] {
      var front, last := indices[..|indices| - 1], indices[|indices| - 1];
      NamedMember(slots, front, k);
      assert indices == front + [last];
    }
  }

  lemma {:induction false} NamedAscends(slots: map<int, Slot>, indices: seq<int>)
    requires Ascending(indices)
    ensures Ascending(NamedOf(slots, indices))
  {
    if indices != [] {
      var front, last := indices[..|indices| - 1], indices[|indices| - 1];
      NamedAscends(slots, front);
      var order := NamedOf(slots, front);
      forall i | 0 <= i < |order| ensures order[i] < last {
        NamedMember(slots, front, order[i]);
        var j :| 0 <= j < |front| && front[j] == order[i];
        assert indices[j] < indices[|front|];
      }
    }
  }

  lemma NamedOrders(slots: map<int, Slot>, indices: seq<int>)
    requires Orders(indices, slots.Keys)
    ensures Orders(NamedOf(slots, indices), Named(slots))
  {
    var order := NamedOf(slots, indices);
    NamedAscends(slots, indices);
    forall i | 0 <= i < |order| ensures order[i] in Named(slots) {
      NamedMember(slots, indices, order[i]);
    }
    forall k | k in Named(slots) ensures k in order {
      MemberIsOrdered(indices, slots.Keys, k);
      NamedMember(slots, indices, k);
    }
  }

  // ----- one whole body -----

  function WholeSlot(d: CallPart): Slot {
    Slot(d.id.GetOr(""), d.name.GetOr(""), d.args.GetOr(""))
  }

  function TakeWholeCalls(slots: map<int, Slot>, calls: seq<Option<CallPart>>): map<int, Slot> {
    if calls == [] then slots
    else
      var n := |calls| - 1;
      var front := TakeWholeCalls(slots, calls[..n]);
      match calls[n]
      case None => front
      case Some(d) => front[n := WholeSlot(d)]
  }

  function TakeMessages(p: Parts, choices: seq<Option<Choice>>): Parts {
    if choices == [] then p
    else
      var front := TakeMessages(p, choices[..|choices| - 1]);
      match choices[|choices| - 1]
      case None => front
      case Some(c) => Parts(WithPart(front.content, c.content), WithPart(front.reasoning, c.reasoning),
                            TakeWholeCalls(front.slots, c.calls), Latest(front.finish, c.finish), front.usage)
  }

  function TakeBody(p: Parts, body: Chunk): Parts {
    TakeMessages(p.(usage := ReportedIfAny(p.usage, body.usage)), body.choices)
  }

  // ----- the two paths -----

  datatype Outcome = Assembled(response: Response) | Retryable | Failed

  /** `started` tells whether the first line or the close came in time, `broken` whether the transport reports an error. */
  method ConsumeSSEStream(decode: Decoder, eventStream: bool, started: bool, lines: seq<string>, broken: bool)
    returns (outcome: Outcome)
    ensures outcome.Retryable? <==> !eventStream || !started || lines == []
    ensures outcome.Failed? <==> eventStream && started && lines != [] && broken
    ensures outcome.Assembled? ==> Builds(TakeChunks(Payloads(decode, lines)), outcome.response)
  {
    if !eventStream {
      return Retryable;
    }
    if !started || lines == [] {
      return Retryable;
    }
    var assembler := new Assembler(decode);
    var i, finished := 0, false;
    while i < |lines| && !finished
      invariant i <= |lines| && finished == Ended(decode, lines[..i])
      invariant assembler.Value() == TakeChunks(Payloads(decode, lines[..i]))
      decreases |lines| - i
    {
      OneMoreLine(decode, lines[..i], lines[i]);
      assert lines[..i + 1] == lines[..i] + [lines[i]];
      finished := assembler.ProcessLine(lines[i]);
      i := i + 1;
    }
    if finished {
      NothingAfterTheEnd(decode, lines[..i], lines[i..]);
      assert lines == lines[..i] + lines[i..];
    } else {
      assert lines[..i] == lines;
    }
    if broken {
      return Failed;
    }
    var r := assembler.BuildResponse();
    outcome := Assembled(r);
  }

  /** `json` tells whether the header allows a JSON body, `readable` whether the body could be read. */
  method ConsumeOneShot(json: bool, readable: bool, body: Option<Chunk>) returns (outcome: Outcome)
    ensures outcome.Retryable? <==> !json || !readable
    ensures outcome.Failed? <==> json && readable && body.None?
    ensures outcome.Assembled? ==> body.Some? && Builds(TakeBody(NOTHING, body.value), outcome.response)
  {
    if !json || !readable {
      return Retryable;
    }
    if body.None? {
      return Failed;
    }
    var assembler := new Assembler((payload: string) => None);
    assembler.AddBody(body.value);
    var r := assembler.BuildResponse();
    outcome := Assembled(r);
  }

  lemma OneMoreLine(decode: Decoder, lines: seq<string>, line: string)
    ensures Ended(decode, lines + [line]) <==> Ended(decode, lines) || MeaningOf(decode, line).Finished?
    ensures !Ended(decode, lines) ==>
      Payloads(decode, lines + [line]) ==
      Payloads(decode, lines) + (if MeaningOf(decode, line).Payload? then [MeaningOf(decode, line).chunk] else [])
  {
    assert (lines + [line])[..|lines|] == lines;
    assert forall i | 0 <= i < |lines| :: (lines + [line])[i] == lines[i];
    assert (lines + [line])[|lines|] == line;
  }

  // ----- lines that change nothing -----

  /** Everything after the end mark is dropped. */
  lemma {:induction false} NothingAfterTheEnd(decode: Decoder, lines: seq<string>, rest: seq<string>)
    requires Ended(decode, lines)
    ensures Ended(decode, lines + rest) && Payloads(decode, lines + rest) == Payloads(decode, lines)
  {
    if rest == [] {
      assert lines + rest == lines;
    } else {
      var front := rest[..|rest| - 1];
      NothingAfterTheEnd(decode, lines, front);
      assert (lines + rest)[..|lines + rest| - 1] == lines + front;
      assert lines + rest == (lines + front) + [rest[|rest| - 1]];
      OneMoreLine(decode, lines + front, rest[|rest| - 1]);
    }
  }

  /** Blank lines, other fields, comments and payloads that do not decode can be put anywhere. */
  lemma {:induction false} IgnoredLinesChangeNothing(decode: Decoder, before: seq<string>, line: string, after: seq<string>)
    requires MeaningOf(decode, line).Ignored?
    ensures Payloads(decode, before + [line] + after) == Payloads(decode, before + after)
    ensures Ended(decode, before + [line] + after) == Ended(decode, before + after)
  {
    if after == [] {
      assert before + [line] + after == before + [line] && before + after == before;
      assert (before + [line])[..|before|] == before;
      OneMoreLine(decode, before, line);
    } else {
      var front, last := after[..|after| - 1], after[|after| - 1];
      IgnoredLinesChangeNothing(decode, before, line, front);
      var with, without := before + [line] + front, before + front;
      assert before + [line] + after == with + [last] && before + after == without + [last];
      assert (with + [last])[..|with|] == with && (without + [last])[..|without|] == without;
      OneMoreLine(decode, with, last);
      OneMoreLine(decode, without, last);
    }
  }

  // ----- what the slots end up holding -----

  /** The entries that are there, in order. */
  function Present<T>(items: seq<Option<T>>): seq<T> {
    if items == [] then []
    else
      var last := items[|items| - 1];
      Present(items[..|items| - 1]) + (if last.Some? then [last.value] else [])
  }

  function AllChoices(chunks: seq<Chunk>): seq<Choice> {
    if chunks == [] then [] else AllChoices(chunks[..|chunks| - 1]) + Present(chunks[|chunks| - 1].choices)
  }

  function CallsOf(choices: seq<Choice>): seq<CallPart> {
    if choices == [] then [] else CallsOf(choices[..|choices| - 1]) + Present(choices[|choices| - 1].calls)
  }

  function ContentOf(choices: seq<Choice>): string {
    if choices == [] then "" else ContentOf(choices[..|choices| - 1]) + choices[|choices| - 1].content.GetOr("")
  }

  function ReasoningOf(choices: seq<Choice>): string {
    if choices == [] then "" else ReasoningOf(choices[..|choices| - 1]) + choices[|choices| - 1].reasoning.GetOr("")
  }

  function FinishOf(choices: seq<Choice>): string {
    if choices == [] then "stop" else Latest(FinishOf(choices[..|choices| - 1]), choices[|choices| - 1].finish)
  }

  function UsageOf(chunks: seq<Chunk>): map<string, int> {
    if chunks == [] then map[] else ReportedIfAny(UsageOf(chunks[..|chunks| - 1]), chunks[|chunks| - 1].usage)
  }

  /** The parts of the call at one index, in order. */
  function At(calls: seq<CallPart>, index: int): seq<CallPart> {
    if calls == [] then []
    else At(calls[..|calls| - 1], index) + (if calls[|calls| - 1].index == index then [calls[|calls| - 1]] else [])
  }

  function LastId(parts: seq<CallPart>): string {
    if parts == [] then "" else Latest(LastId(parts[..|parts| - 1]), parts[|parts| - 1].id)
  }

  function LastName(parts: seq<CallPart>): string {
    if parts == [] then "" else Latest(LastName(parts[..|parts| - 1]), parts[|parts| - 1].name)
  }

  function ArgsOf(parts: seq<CallPart>): string {
    if parts == [] then "" else ArgsOf(parts[..|parts| - 1]) + parts[|parts| - 1].args.GetOr("")
  }

  function SlotsOf(calls: seq<CallPart>): map<int, Slot> {
    if calls == [] then map[] else TakeCall(SlotsOf(calls[..|calls| - 1]), calls[|calls| - 1])
  }

  lemma PartExtends(parts: seq<CallPart>, d: CallPart)
    ensures LastId(parts + [d]) == Latest(LastId(parts), d.id)
    ensures LastName(parts + [d]) == Latest(LastName(parts), d.name)
    ensures ArgsOf(parts + [d]) == ArgsOf(parts) + d.args.GetOr("")
  {
    assert (parts + [d])[..|parts|] == parts;
  }

  lemma SlotExtends(calls: seq<CallPart>, d: CallPart)
    ensures SlotsOf(calls + [d]) == TakeCall(SlotsOf(calls), d)
  {
    assert (calls + [d])[..|calls|] == calls;
  }

  /** Each slot depends on the parts with its own index alone. */
  lemma {:induction false} SlotHoldsItsParts(calls: seq<CallPart>, index: int)
    ensures index in SlotsOf(calls) <==> At(calls, index) != []
    ensures index in SlotsOf(calls) ==>
      SlotsOf(calls)[index] == Slot(LastId(At(calls, index)), LastName(At(calls, index)), ArgsOf(At(calls, index)))
  {
    if calls != [] {
      var front, last := calls[..|calls| - 1], calls[|calls| - 1];
      SlotHoldsItsParts(front, index);
      assert SlotsOf(calls) == TakeCall(SlotsOf(front), last);
      if last.index == index {
        PartExtends(At(front, index), last);
      } else {
        assert At(calls, index) == At(front, index);
      }
    }
  }

  lemma {:induction false} CallsExtendSlots(earlier: seq<CallPart>, calls: seq<Option<CallPart>>)
    ensures TakeCalls(SlotsOf(earlier), calls) == SlotsOf(earlier + Present(calls))
  {
    if calls == [] {
      assert earlier + [] == earlier;
    } else {
      var n := |calls| - 1;
      CallsExtendSlots(earlier, calls[..n]);
      var front := earlier + Present(calls[..n]);
      if calls[n].Some? {
        assert earlier + Present(calls) == front + [calls[n].value];
        SlotExtends(front, calls[n].value);
      } else {
        assert earlier + Present(calls) == front;
      }
    }
  }

  // ----- the stream's own account of itself -----

  /** Texts and calls of a stream are those of its choices one after the other. */
  lemma {:induction false} ContentsAddUp(a: seq<Choice>, b: seq<Choice>)
    ensures ContentOf(a + b) == ContentOf(a) + ContentOf(b)
  {
    if b == [] {
      assert a + b == a;
    } else {
      var front, last := b[..|b| - 1], b[|b| - 1];
      ContentsAddUp(a, front);
      assert (a + b)[..|a + b| - 1] == a + front;
      Regroup(ContentOf(a), ContentOf(front), last.content.GetOr(""));
    }
  }

  lemma {:induction false} ReasoningsAddUp(a: seq<Choice>, b: seq<Choice>)
    ensures ReasoningOf(a + b) == ReasoningOf(a) + ReasoningOf(b)
  {
    if b == [] {
      assert a + b == a;
    } else {
      var front, last := b[..|b| - 1], b[|b| - 1];
      ReasoningsAddUp(a, front);
      assert (a + b)[..|a + b| - 1] == a + front;
      Regroup(ReasoningOf(a), ReasoningOf(front), last.reasoning.GetOr(""));
    }
  }

  lemma {:induction false} CallsAddUp(a: seq<Choice>, b: seq<Choice>)
    ensures CallsOf(a + b) == CallsOf(a) + CallsOf(b)
  {
    if b == [] {
      assert a + b == a;
    } else {
      var front, last := b[..|b| - 1], b[|b| - 1];
      CallsAddUp(a, front);
      assert (a + b)[..|a + b| - 1] == a + front;
      Regroup(CallsOf(a), CallsOf(front), Present(last.calls));
    }
  }

  lemma OneChoiceSays(c: Choice) returns (at: seq<nat>)
    ensures ContentOf([c]) == (if c.content.Some? then c.content.value else "")
    ensures ReasoningOf([c]) == (if c.reasoning.Some? then c.reasoning.value else "")
    ensures Increasing(at, |c.calls|) && |CallsOf([c])| == |at|
    ensures forall i | 0 <= i < |c.calls| :: i in at <==> c.calls[i].Some?
    ensures forall k | 0 <= k < |at| :: c.calls[at[k]] == Some(CallsOf([c])[k])
  {
    assert [c][..0] == [] && CallsOf([c]) == Present(c.calls);
    at := PresentExactly(c.calls);
  }

  lemma {:induction false} PresentExactly<T>(items: seq<Option<T>>) returns (at: seq<nat>)
    ensures Increasing(at, |items|) && |Present(items)| == |at|
    ensures forall i | 0 <= i < |items| :: i in at <==> items[i].Some?
    ensures forall k | 0 <= k < |at| :: items[at[k]] == Some(Present(items)[k])
  {
    at := [];
    if items != [] {
      var n := |items| - 1;
      var before := PresentExactly(items[..n]);
      var front, last := Present(items[..n]), if items[n].Some? then [items[n].value] else [];
      at := before + if items[n].Some? then [n] else [];
      assert Present(items) == front + last;
      forall k | 0 <= k < |at| ensures items[at[k]] == Some(Present(items)[k]) {
        if k < |before| {
          assert items[..n][before[k]] == items[before[k]];
        }
      }
    }
  }

  /** The choices of a stream are those of its chunks one after the other, entries that are no objects left out. */
  lemma {:induction false} ChunksAddUp(a: seq<Chunk>, b: seq<Chunk>)
    ensures AllChoices(a + b) == AllChoices(a) + AllChoices(b)
  {
    if b == [] {
      assert a + b == a;
    } else {
      ChunksAddUp(a, b[..|b| - 1]);
      assert (a + b)[..|a + b| - 1] == a + b[..|b| - 1];
      Regroup(AllChoices(a), AllChoices(b[..|b| - 1]), Present(b[|b| - 1].choices));
    }
  }

  lemma OneChunkSays(chunk: Chunk) returns (at: seq<nat>)
    ensures Increasing(at, |chunk.choices|) && |AllChoices([chunk])| == |at|
    ensures forall i | 0 <= i < |chunk.choices| :: i in at <==> chunk.choices[i].Some?
    ensures forall k | 0 <= k < |at| :: chunk.choices[at[k]] == Some(AllChoices([chunk])[k])
  {
    assert [chunk][..0] == [] && AllChoices([chunk]) == Present(chunk.choices);
    at := PresentExactly(chunk.choices);
  }

  /** The parts of one index, in order; the last id and the last name they say that are not empty, and all their arguments. */
  lemma {:induction false} PartsAtExactly(calls: seq<CallPart>, index: int) returns (at: seq<nat>)
    ensures StandAt(At(calls, index), calls, at)
    ensures forall i | 0 <= i < |calls| :: i in at <==> calls[i].index == index
  {
    at := [];
    if calls != [] {
      var n := |calls| - 1;
      at := PartsAtExactly(calls[..n], index);
      StandAtExtends(At(calls[..n], index), calls[..n], at, calls[n], calls[n].index == index);
      at := at + if calls[n].index == index then [n] else [];
      assert calls == calls[..n] + [calls[n]];
    }
  }

  lemma {:induction false} LastIdSaysExactly(parts: seq<CallPart>) returns (i: nat)
    ensures LastId(parts) == "" ==> forall j | 0 <= j < |parts| :: parts[j].id.GetOr("") == ""
    ensures LastId(parts) != "" ==> i < |parts| && parts[i].id == Some(LastId(parts))
    ensures LastId(parts) != "" ==> forall j | i < j < |parts| :: parts[j].id.GetOr("") == ""
  {
    i := 0;
    if parts != [] {
      var n := |parts| - 1;
      i := LastIdSaysExactly(parts[..n]);
      if parts[n].id.GetOr("") != "" {
        i := n;
      }
    }
  }

  lemma {:induction false} LastNameSaysExactly(parts: seq<CallPart>) returns (i: nat)
    ensures LastName(parts) == "" ==> forall j | 0 <= j < |parts| :: parts[j].name.GetOr("") == ""
    ensures LastName(parts) != "" ==> i < |parts| && parts[i].name == Some(LastName(parts))
    ensures LastName(parts) != "" ==> forall j | i < j < |parts| :: parts[j].name.GetOr("") == ""
  {
    i := 0;
    if parts != [] {
      var n := |parts| - 1;
      i := LastNameSaysExactly(parts[..n]);
      if parts[n].name.GetOr("") != "" {
        i := n;
      }
    }
  }

  lemma {:induction false} LastFinishSaysExactly(choices: seq<Choice>) returns (i: nat)
    ensures (forall j | 0 <= j < |choices| :: choices[j].finish.GetOr("") == "") ==> FinishOf(choices) == "stop"
    ensures (exists j | 0 <= j < |choices| :: choices[j].finish.GetOr("") != "") ==>
              && i < |choices| && choices[i].finish == Some(FinishOf(choices))
              && forall j | i < j < |choices| :: choices[j].finish.GetOr("") == ""
  {
    i := 0;
    if choices != [] {
      var n := |choices| - 1;
      i := LastFinishSaysExactly(choices[..n]);
      assert forall j | 0 <= j < n :: choices[..n][j] == choices[j];
      if choices[n].finish.GetOr("") != "" {
        i := n;
      }
    }
  }

  lemma {:induction false} ArgumentsAddUp(a: seq<CallPart>, b: seq<CallPart>)
    ensures ArgsOf(a + b) == ArgsOf(a) + ArgsOf(b)
  {
    if b == [] {
      assert a + b == a;
    } else {
      var front, last := b[..|b| - 1], b[|b| - 1];
      ArgumentsAddUp(a, front);
      PartExtends(a + front, last);
      PartExtends(front, last);
      assert a + b == (a + front) + [last] && b == front + [last];
      Regroup(ArgsOf(a), ArgsOf(front), last.args.GetOr(""));
    }
  }

  lemma OneArgumentSays(d: CallPart)
    ensures ArgsOf([d]) == if d.args.Some? then d.args.value else ""
  {
    PartExtends([], d);
    assert [] + [d] == [d];
  }

  /** Until the end mark the payloads of a stream are those of its lines one after the other. */
  lemma {:induction false} LinesAddUp(decode: Decoder, a: seq<string>, b: seq<string>)
    requires !Ended(decode, a + b)
    ensures Payloads(decode, a + b) == Payloads(decode, a) + Payloads(decode, b)
  {
    if b == [] {
      assert a + b == a;
    } else {
      var front, last := b[..|b| - 1], b[|b| - 1];
      assert a + b == (a + front) + [last] && b == front + [last];
      OneMoreLine(decode, a + front, last);
      OneMoreLine(decode, front, last);
      assert forall i | 0 <= i < |front| :: (a + front)[|a| + i] == front[i];
      LinesAddUp(decode, a, front);
    }
  }

  /** What a line means: a data line with any white space around its payload, and any other line. */
  lemma LineMeansExactly(decode: Decoder, before: string, payload: string, after: string, other: string)
    requires Blank(before) && Blank(after) && Trimmed(payload)
    requires !("data:" <= other)
    ensures var meaning := MeaningOf(decode, "data:" + (before + payload + after));
      if payload == "[DONE]" then meaning == Finished
      else if decode(payload).Some? then meaning == Payload(decode(payload).value) else meaning == Ignored
    ensures MeaningOf(decode, other) == Ignored
  {
    var line := "data:" + (before + payload + after);
    assert line[|DATA|..] == before + payload + after;
    TrimSpaceOfPadded(before, payload, after);
  }

  /** The parts hold what the choices so far say. */
  predicate Holds(p: Parts, choices: seq<Choice>) {
    && Concat(p.content) == ContentOf(choices)
    && Concat(p.reasoning) == ReasoningOf(choices)
    && p.slots == SlotsOf(CallsOf(choices))
    && p.finish == FinishOf(choices)
  }

  lemma PartIsJoined(parts: seq<string>, part: Option<string>)
    ensures Concat(WithPart(parts, part)) == Concat(parts) + part.GetOr("")
  {
    if part.GetOr("") != "" {
      assert (parts + [part.value])[..|parts|] == parts;
    }
  }

  lemma ChoiceExtends(p: Parts, choices: seq<Choice>, c: Choice)
    requires Holds(p, choices)
    ensures Holds(TakeChoice(p, c), choices + [c])
  {
    assert (choices + [c])[..|choices|] == choices;
    PartIsJoined(p.content, c.content);
    PartIsJoined(p.reasoning, c.reasoning);
    CallsExtendSlots(CallsOf(choices), c.calls);
  }

  lemma OneMorePresent(earlier: seq<Choice>, choices: seq<Option<Choice>>)
    requires choices != []
    ensures var n := |choices| - 1;
      var front := earlier + Present(choices[..n]);
      earlier + Present(choices) == if choices[n].Some? then front + [choices[n].value] else front
  {
    var n := |choices| - 1;
    var present := Present(choices[..n]);
    if choices[n].Some? {
      var last := [choices[n].value];
      assert Present(choices) == present + last;
      Regroup(earlier, present, last);
    } else {
      assert Present(choices) == present + [] == present;
    }
  }

  lemma {:induction false} ChoicesExtend(p: Parts, earlier: seq<Choice>, choices: seq<Option<Choice>>)
    requires Holds(p, earlier)
    ensures Holds(TakeChoices(p, choices), earlier + Present(choices))
    ensures TakeChoices(p, choices).usage == p.usage
  {
    if choices == [] {
      assert earlier + [] == earlier;
    } else {
      var n := |choices| - 1;
      var before, front := TakeChoices(p, choices[..n]), earlier + Present(choices[..n]);
      ChoicesExtend(p, earlier, choices[..n]);
      OneMorePresent(earlier, choices);
      if choices[n].Some? {
        ChoiceExtends(before, front, choices[n].value);
      }
    }
  }

  /** Streaming keeps exactly the concatenations, the last non-empty values and the reported usage. */
  lemma {:induction false} StreamHoldsItsChoices(chunks: seq<Chunk>)
    ensures Holds(TakeChunks(chunks), AllChoices(chunks)) && TakeChunks(chunks).usage == UsageOf(chunks)
  {
    if chunks != [] {
      var n := |chunks| - 1;
      StreamHoldsItsChoices(chunks[..n]);
      var p := TakeChunks(chunks[..n]);
      ChoicesExtend(p.(usage := ReportedIfAny(p.usage, chunks[n].usage)), AllChoices(chunks[..n]), chunks[n].choices);
    }
  }

  // ----- responses depend on the parts' meaning alone -----

  lemma OrderHasMember(order: seq<int>, keys: set<int>, i: nat)
    requires Orders(order, keys) && i < |order|
    ensures order[i] in keys
  {
  }

  lemma MemberIsOrdered(order: seq<int>, keys: set<int>, k: int)
    requires Orders(order, keys) && k in keys
    ensures k in order
  {
  }

  /** There is only one ascending order of a set. */
  lemma {:induction false} OrderIsUnique(a: seq<int>, b: seq<int>, keys: set<int>)
    requires Orders(a, keys) && Orders(b, keys)
    ensures a == b
  {
    if a != [] {
      OrderHasMember(a, keys, 0);
      MemberIsOrdered(b, keys, a[0]);
    }
    if b != [] {
      OrderHasMember(b, keys, 0);
      MemberIsOrdered(a, keys, b[0]);
      var m, n := |a| - 1, |b| - 1;
      LastIsGreatest(a, keys);
      LastIsGreatest(b, keys);
      OrderHasMember(a, keys, m);
      OrderHasMember(b, keys, n);
      FrontOrders(a, keys);
      FrontOrders(b, keys);
      OrderIsUnique(a[..m], b[..n], keys - {a[m]});
      assert a == a[..m] + [a[m]] && b == b[..n] + [b[n]];
    }
  }

  lemma LastIsGreatest(order: seq<int>, keys: set<int>)
    requires Orders(order, keys) && order != []
    ensures forall k | k in keys :: k <= order[|order| - 1]
  {
    forall k | k in keys ensures k <= order[|order| - 1] {
      var i :| 0 <= i < |order| && order[i] == k;
    }
  }

  lemma FrontOrders(order: seq<int>, keys: set<int>)
    requires Orders(order, keys) && order != []
    ensures Orders(order[..|order| - 1], keys - {order[|order| - 1]})
  {
    var front, last := order[..|order| - 1], order[|order| - 1];
    forall k | k in keys - {last} ensures k in front {
      var i :| 0 <= i < |order| && order[i] == k;
      assert front[i] == k;
    }
  }

  lemma {:induction false} SameSlotsSameRequests(a: map<int, Slot>, b: map<int, Slot>, order: seq<int>)
    requires forall i | 0 <= i < |order| :: order[i] in a && order[i] in b && a[order[i]] == b[order[i]]
    ensures Requests(a, order) == Requests(b, order)
  {
    if order != [] {
      SameSlotsSameRequests(a, b, order[..|order| - 1]);
    }
  }

  /** Two sets of parts that say the same: the same texts, and the same named slots. */
  predicate Alike(p: Parts, q: Parts) {
    && Concat(p.content) == Concat(q.content) && Concat(p.reasoning) == Concat(q.reasoning)
    && p.finish == q.finish && p.usage == q.usage
    && Named(p.slots) == Named(q.slots)
    && forall i | i in Named(p.slots) :: p.slots[i] == q.slots[i]
  }

  lemma AlikeBuildTheSame(p: Parts, q: Parts, r: Response, s: Response)
    requires Alike(p, q) && Builds(p, r) && Builds(q, s)
    ensures r == s
  {
    var a :| Orders(a, Named(p.slots)) && r.calls == Requests(p.slots, a);
    var b :| Orders(b, Named(q.slots)) && s.calls == Requests(q.slots, b);
    OrderIsUnique(a, b, Named(p.slots));
    SameSlotsSameRequests(p.slots, q.slots, a);
  }

  // ----- streaming equals one-shot -----

  /** The call that a whole message has at an index; an unnamed, empty one where it has none. */
  function WholeCall(whole: Choice, index: int): Slot {
    if 0 <= index < |whole.calls| && whole.calls[index].Some? then WholeSlot(whole.calls[index].value) else Slot("", "", "")
  }

  /** The text is whole in some fragment, unless it is empty, and no fragment says otherwise. */
  predicate SaidInFull(value: string, said: seq<Option<string>>) {
    && (forall s | s in said :: s.GetOr("") == "" || s == Some(value))
    && (value != "" ==> Some(value) in said)
  }

  function IdsOf(parts: seq<CallPart>): seq<Option<string>> {
    seq(|parts|, (i: nat) requires i < |parts| => parts[i].id)
  }

  function NamesOf(parts: seq<CallPart>): seq<Option<string>> {
    seq(|parts|, (i: nat) requires i < |parts| => parts[i].name)
  }

  predicate FragmentsCall(parts: seq<CallPart>, call: Slot) {
    ArgsOf(parts) == call.args && SaidInFull(call.id, IdsOf(parts)) && SaidInFull(call.name, NamesOf(parts))
  }

  function FinishesOf(choices: seq<Choice>): seq<Option<string>> {
    seq(|choices|, (i: nat) requires i < |choices| => choices[i].finish)
  }

  /** The chunks carry the one choice of a whole completion, cut up and interleaved in any way. */
  ghost predicate Fragments(chunks: seq<Chunk>, whole: Choice, usage: Option<UsageReport>) {
    var choices := AllChoices(chunks);
    && ContentOf(choices) == whole.content.GetOr("")
    && ReasoningOf(choices) == whole.reasoning.GetOr("")
    && SaidInFull(whole.finish.GetOr(""), FinishesOf(choices))
    && (forall c | c in chunks :: c.usage.Some? ==> c.usage == usage)
    && (usage.Some? ==> exists c | c in chunks :: c.usage == usage)
    && forall index: int :: FragmentsCall(At(CallsOf(choices), index), WholeCall(whole, index))
  }

  lemma {:induction false} LastIdIsSaid(parts: seq<CallPart>, id: string)
    requires forall s | s in IdsOf(parts) :: s.GetOr("") == "" || s == Some(id)
    ensures LastId(parts) == if id != "" && Some(id) in IdsOf(parts) then id else ""
  {
    if parts != [] {
      var n := |parts| - 1;
      var ids, front := IdsOf(parts), IdsOf(parts[..n]);
      assert ids == front + [parts[n].id];
      LastIdIsSaid(parts[..n], id);
      assert parts[n].id in ids;
    }
  }

  lemma {:induction false} LastNameIsSaid(parts: seq<CallPart>, name: string)
    requires forall s | s in NamesOf(parts) :: s.GetOr("") == "" || s == Some(name)
    ensures LastName(parts) == if name != "" && Some(name) in NamesOf(parts) then name else ""
  {
    if parts != [] {
      var n := |parts| - 1;
      var names, front := NamesOf(parts), NamesOf(parts[..n]);
      assert names == front + [parts[n].name];
      LastNameIsSaid(parts[..n], name);
      assert parts[n].name in names;
    }
  }

  lemma {:induction false} LastFinishIsSaid(choices: seq<Choice>, finish: string)
    requires forall s | s in FinishesOf(choices) :: s.GetOr("") == "" || s == Some(finish)
    ensures FinishOf(choices) == if finish != "" && Some(finish) in FinishesOf(choices) then finish else "stop"
  {
    if choices != [] {
      var n := |choices| - 1;
      var said, front := FinishesOf(choices), FinishesOf(choices[..n]);
      assert said == front + [choices[n].finish];
      LastFinishIsSaid(choices[..n], finish);
      assert choices[n].finish in said;
    }
  }

  lemma ReportingTwice(usage: map<string, int>, report: UsageReport)
    ensures Reported(Reported(usage, report), report) == Reported(usage, report)
  {
  }

  lemma {:induction false} UsageIsReportedOnce(chunks: seq<Chunk>, usage: Option<UsageReport>)
    requires forall c | c in chunks :: c.usage.Some? ==> c.usage == usage
    ensures UsageOf(chunks) == if exists c | c in chunks :: c.usage.Some? then ReportedIfAny(map[], usage) else map[]
  {
    if chunks != [] {
      var n := |chunks| - 1;
      UsageIsReportedOnce(chunks[..n], usage);
      assert forall c | c in chunks :: c in chunks[..n] || c == chunks[n];
      if chunks[n].usage.Some? {
        ReportingTwice(map[], usage.value);
        assert chunks[n] in chunks;
      }
    }
  }

  lemma {:induction false} WholeSlots(calls: seq<Option<CallPart>>, index: int)
    ensures index in TakeWholeCalls(map[], calls) <==> 0 <= index < |calls| && calls[index].Some?
    ensures index in TakeWholeCalls(map[], calls) ==> TakeWholeCalls(map[], calls)[index] == WholeSlot(calls[index].value)
  {
    if calls != [] {
      WholeSlots(calls[..|calls| - 1], index);
    }
  }

  lemma SameSlotAtIndex(chunks: seq<Chunk>, whole: Choice, usage: Option<UsageReport>, index: int)
    requires Fragments(chunks, whole, usage)
    ensures var streamed, one := SlotsOf(CallsOf(AllChoices(chunks))), TakeWholeCalls(map[], whole.calls);
      && (index in Named(streamed) <==> index in Named(one))
      && (index in Named(streamed) ==> streamed[index] == one[index])
  {
    var calls := CallsOf(AllChoices(chunks));
    var parts, call := At(calls, index), WholeCall(whole, index);
    SlotHoldsItsParts(calls, index);
    WholeSlots(whole.calls, index);
    assert FragmentsCall(parts, call);
    LastIdIsSaid(parts, call.id);
    LastNameIsSaid(parts, call.name);
  }

  lemma FragmentsAreAlike(chunks: seq<Chunk>, whole: Choice, usage: Option<UsageReport>)
    requires Fragments(chunks, whole, usage)
    ensures Alike(TakeChunks(chunks), TakeBody(NOTHING, Chunk(usage, [Some(whole)])))
  {
    var streamed, one := TakeChunks(chunks), TakeBody(NOTHING, Chunk(usage, [Some(whole)]));
    var choices := AllChoices(chunks);
    StreamHoldsItsChoices(chunks);
    WholeMessage(NOTHING.(usage := ReportedIfAny(map[], usage)), whole);
    LastFinishIsSaid(choices, whole.finish.GetOr(""));
    UsageIsReportedOnce(chunks, usage);
    forall index: int
      ensures index in Named(streamed.slots) <==> index in Named(one.slots)
      ensures index in Named(streamed.slots) ==> streamed.slots[index] == one.slots[index]
    {
      SameSlotAtIndex(chunks, whole, usage, index);
    }
  }

  lemma WholeMessage(p: Parts, whole: Choice)
    requires p.content == [] && p.reasoning == [] && p.slots == map[] && p.finish == "stop"
    ensures var one := TakeMessages(p, [Some(whole)]);
      && Concat(one.content) == whole.content.GetOr("") && Concat(one.reasoning) == whole.reasoning.GetOr("")
      && one.slots == TakeWholeCalls(map[], whole.calls) && one.finish == Latest("stop", whole.finish) && one.usage == p.usage
  {
    assert [Some(whole)][..0] == [];
    PartIsJoined([], whole.content);
    PartIsJoined([], whole.reasoning);
  }

  /** However a completion is cut into events, the stream and the whole body give the same response. */
  lemma StreamEqualsOneShot(decode: Decoder, lines: seq<string>, whole: Choice, usage: Option<UsageReport>,
                            streamed: Response, oneShot: Response)
    requires Fragments(Payloads(decode, lines), whole, usage)
    requires Builds(TakeChunks(Payloads(decode, lines)), streamed)
    requires Builds(TakeBody(NOTHING, Chunk(usage, [Some(whole)])), oneShot)
    ensures streamed == oneShot
  {
    FragmentsAreAlike(Payloads(decode, lines), whole, usage);
    AlikeBuildTheSame(TakeChunks(Payloads(decode, lines)), TakeBody(NOTHING, Chunk(usage, [Some(whole)])), streamed, oneShot);
  }

  lemma AlikeBuildsToo(p: Parts, q: Parts, r: Response)
    requires Alike(p, q) && Builds(p, r)
    ensures Builds(q, r)
  {
    var order :| Orders(order, Named(p.slots)) && r.calls == Requests(p.slots, order);
    SameSlotsSameRequests(p.slots, q.slots, order);
    assert Orders(order, Named(q.slots)) && r.calls == Requests(q.slots, order);
  }

  // ----- what a response says -----

  /** The requests are those of the slots in order: id, if there is one, name and raw arguments. */
  lemma {:induction false} RequestsSayExactly(slots: map<int, Slot>, order: seq<int>)
    requires forall i | 0 <= i < |order| :: order[i] in slots
    ensures |Requests(slots, order)| == |order|
    ensures forall k | 0 <= k < |order| ::
              var call, slot := Requests(slots, order)[k], slots[order[k]];
              call.name == slot.name && call.rawArguments == slot.args && call.id == if slot.id == "" then None else Some(slot.id)
  {
    if order != [] {
      RequestsSayExactly(slots, order[..|order| - 1]);
    }
  }

  /** A report sets the three totals and, if it has them, the cached tokens; other counts stay. */
  lemma UsageSaysExactly(usage: map<string, int>, report: Option<UsageReport>)
    ensures report.None? ==> ReportedIfAny(usage, report) == usage
    ensures report.Some? ==>
              var now := ReportedIfAny(usage, report);
              && "prompt_tokens" in now && now["prompt_tokens"] == report.value.prompt
              && "completion_tokens" in now && now["completion_tokens"] == report.value.completion
              && "total_tokens" in now && now["total_tokens"] == report.value.total
              && (report.value.cached.Some? ==> "cached_tokens" in now && now["cached_tokens"] == report.value.cached.value)
              && forall key | key !in ["prompt_tokens", "completion_tokens", "total_tokens", "cached_tokens"] ||
                              (key == "cached_tokens" && report.value.cached.None?) ::
                   (key in now <==> key in usage) && (key in now ==> now[key] == usage[key])
  {
  }

  function AsNats(order: seq<int>): (at: seq<nat>)
    requires forall i | 0 <= i < |order| :: order[i] >= 0
    ensures |at| == |order| && forall i | 0 <= i < |order| :: at[i] == order[i]
  {
    seq(|order|, (i: nat) requires i < |order| => order[i])
  }

  /**
    * The response of a whole body: the k-th call has the id, if not empty, the name and the argument text of the k-th
    * named entry of the message's list, and exactly the named entries are there; texts are there unless they are empty.
    */
  lemma OneShotSaysExactly(whole: Choice, usage: Option<UsageReport>, r: Response) returns (at: seq<nat>)
    requires Builds(TakeBody(NOTHING, Chunk(usage, [Some(whole)])), r)
    ensures Increasing(at, |whole.calls|) && |r.calls| == |at|
    ensures forall i | 0 <= i < |whole.calls| :: i in at <==>
              whole.calls[i].Some? && whole.calls[i].value.name.Some? && whole.calls[i].value.name.value != ""
    ensures forall k | 0 <= k < |at| ::
              var call, entry := r.calls[k], whole.calls[at[k]].value;
              && Some(call.name) == entry.name
              && call.rawArguments == (if entry.args.Some? then entry.args.value else "")
              && call.id == if entry.id == Some("") then None else entry.id
    ensures r.content == if whole.content == Some("") then None else whole.content
    ensures r.reasoning == if whole.reasoning == Some("") then None else whole.reasoning
    ensures r.finish == if whole.finish.Some? && whole.finish.value != "" then whole.finish.value else "stop"
    ensures r.usage == ReportedIfAny(map[], usage)
  {
    var parts := TakeBody(NOTHING, Chunk(usage, [Some(whole)]));
    WholeMessage(NOTHING.(usage := ReportedIfAny(map[], usage)), whole);
    var order :| Orders(order, Named(parts.slots)) && r.calls == Requests(parts.slots, order);
    at := WholeCallsSayExactly(whole.calls, order);
  }

  lemma WholeCallsSayExactly(calls: seq<Option<CallPart>>, order: seq<int>) returns (at: seq<nat>)
    requires Orders(order, Named(TakeWholeCalls(map[], calls)))
    ensures var requests := Requests(TakeWholeCalls(map[], calls), order);
      && Increasing(at, |calls|) && |requests| == |at|
      && (forall i | 0 <= i < |calls| :: i in at <==>
            calls[i].Some? && calls[i].value.name.Some? && calls[i].value.name.value != "")
      && forall k | 0 <= k < |at| ::
           var call, entry := requests[k], calls[at[k]].value;
           && Some(call.name) == entry.name
           && call.rawArguments == (if entry.args.Some? then entry.args.value else "")
           && call.id == if entry.id == Some("") then None else entry.id
  {
    var slots := TakeWholeCalls(map[], calls);
    forall index: int
      ensures index in slots <==> 0 <= index < |calls| && calls[index].Some?
      ensures index in slots ==> slots[index] == WholeSlot(calls[index].value)
    {
      WholeSlots(calls, index);
    }
    forall i | 0 <= i < |order| ensures order[i] in Named(slots) {
      OrderHasMember(order, Named(slots), i);
    }
    RequestsSayExactly(slots, order);
    at := AsNats(order);
    NamedEntries(calls, slots, order, at);
    forall k | 0 <= k < |at|
      ensures var call, entry := Requests(slots, order)[k], calls[at[k]].value;
        && Some(call.name) == entry.name
        && call.rawArguments == (if entry.args.Some? then entry.args.value else "")
        && call.id == if entry.id == Some("") then None else entry.id
    {
      assert at[k] in at && slots[order[k]] == WholeSlot(calls[order[k]].value);
    }
  }

  lemma NamedEntries(calls: seq<Option<CallPart>>, slots: map<int, Slot>, order: seq<int>, at: seq<nat>)
    requires Orders(order, Named(slots)) && |at| == |order| && forall i | 0 <= i < |order| :: at[i] == order[i]
    requires forall index: int ::
               && (index in slots <==> 0 <= index < |calls| && calls[index].Some?)
               && (index in slots ==> slots[index] == WholeSlot(calls[index].value))
    ensures Increasing(at, |calls|)
    ensures forall i | 0 <= i < |calls| ::
              i in at <==> calls[i].Some? && calls[i].value.name.Some? && calls[i].value.name.value != ""
  {
    forall i: int | 0 <= i < |calls|
      ensures i in at <==> calls[i].Some? && calls[i].value.name.Some? && calls[i].value.name.value != ""
    {
      if i in Named(slots) {
        MemberIsOrdered(order, Named(slots), i);
        var k :| 0 <= k < |order| && order[k] == i;
        assert at[k] == i;
      }
      if i in at {
        var k :| 0 <= k < |at| && at[k] == i;
        OrderHasMember(order, Named(slots), k);
      }
    }
  }

  /** So does a stream of the same completion, however it is cut up and interleaved. */
  lemma StreamSaysExactly(decode: Decoder, lines: seq<string>, whole: Choice, usage: Option<UsageReport>, r: Response)
    returns (at: seq<nat>)
    requires Fragments(Payloads(decode, lines), whole, usage) && Builds(TakeChunks(Payloads(decode, lines)), r)
    ensures Increasing(at, |whole.calls|) && |r.calls| == |at|
    ensures forall i | 0 <= i < |whole.calls| :: i in at <==>
              whole.calls[i].Some? && whole.calls[i].value.name.Some? && whole.calls[i].value.name.value != ""
    ensures forall k | 0 <= k < |at| ::
              var call, entry := r.calls[k], whole.calls[at[k]].value;
              && Some(call.name) == entry.name
              && call.rawArguments == (if entry.args.Some? then entry.args.value else "")
              && call.id == if entry.id == Some("") then None else entry.id
    ensures r.content == if whole.content == Some("") then None else whole.content
    ensures r.reasoning == if whole.reasoning == Some("") then None else whole.reasoning
    ensures r.finish == if whole.finish.Some? && whole.finish.value != "" then whole.finish.value else "stop"
    ensures r.usage == ReportedIfAny(map[], usage)
  {
    FragmentsAreAlike(Payloads(decode, lines), whole, usage);
    AlikeBuildsToo(TakeChunks(Payloads(decode, lines)), TakeBody(NOTHING, Chunk(usage, [Some(whole)])), r);
    at := OneShotSaysExactly(whole, usage, r);
  }

  /** Any stream, whatever it says: each call of the response is put together from the parts of its own index, in index order. */
  lemma StreamCallsSayExactly(chunks: seq<Chunk>, r: Response) returns (order: seq<int>)
    requires Builds(TakeChunks(chunks), r)
    ensures var choices := AllChoices(chunks);
      && |r.calls| == |order| && (forall i, j | 0 <= i < j < |order| :: order[i] < order[j])
      && (forall index: int :: index in order <==> LastName(At(CallsOf(choices), index)) != "")
      && (forall k | 0 <= k < |order| ::
            var call, parts := r.calls[k], At(CallsOf(choices), order[k]);
            && call.name == LastName(parts) && call.rawArguments == ArgsOf(parts)
            && call.id == if LastId(parts) == "" then None else Some(LastId(parts)))
      && r.content == (if ContentOf(choices) == "" then None else Some(ContentOf(choices)))
      && r.reasoning == (if ReasoningOf(choices) == "" then None else Some(ReasoningOf(choices)))
      && r.finish == (if FinishOf(choices) == "" then "stop" else FinishOf(choices)) && r.usage == UsageOf(chunks)
  {
    var slots, calls := TakeChunks(chunks).slots, CallsOf(AllChoices(chunks));
    StreamHoldsItsChoices(chunks);
    order :| Orders(order, Named(slots)) && r.calls == Requests(slots, order);
    forall index: int
      ensures index in slots ==> slots[index].name == LastName(At(calls, index)) && slots[index].id == LastId(At(calls, index))
                                 && slots[index].args == ArgsOf(At(calls, index))
      ensures index in Named(slots) <==> LastName(At(calls, index)) != ""
    {
      SlotHoldsItsParts(calls, index);
    }
    RequestsSayExactly(slots, order);
  }
}
