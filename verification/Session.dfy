/**
 The agent session as a state machine (src/agent.rs). The model, the tools, the user's cancel key
 and the detectors are a script of answers; a script that has run out reads as a cancellation.
 */
module Session {
  import opened Wrappers
  import opened Chat
  import opened Compaction
  import opened Text
  import opened Wording
  import Redaction

  const TOOL_RESULT_MAX_CHARS := 8192
  const MAX_LENGTH_CONTINUATIONS := 2

  // ---------------------------------------------------------------- state and script

  /** The dialogue records of the append-only journal; `logged` is what redaction leaves of the calls. */
  datatype Record =
    | UserRecord(content: string)
    | AssistantRecord(content: string, logged: Option<seq<ToolCall>>)
    | ToolRecord(callId: string, content: string, isError: bool, cancelled: bool)

  /** `assembled` lists the histories from which requests were built, `summaries` counts L3 calls. */
  datatype State = State(
    history: seq<Message>,
    futile: bool,
    log: seq<Record>,
    summaries: nat,
    assembled: seq<seq<Message>>)

  datatype Config = Config(thresholds: Thresholds, maxTurns: nat, redactor: Redaction.Redactor)

  const INITIAL := State([], false, [], 0, [])

  /** A provider's reply: always an assistant message. */
  datatype Reply = Reply(content: string, calls: seq<ToolCall>, reasoning: Option<string>, finish: Option<string>)

  /** An error is classified by its text: the network, too long a context, a broken tool-pair contract. */
  datatype Attempt =
    | Interrupted
    | Failed(network: bool, overflow: bool, toolPair: bool)
    | Replied(reply: Reply)

  /** A retry after a network error: cancelled during the pause, or the call sent once more. */
  datatype Retry = PauseCancelled | Resent(attempt: Attempt)

  /** What one call yields: a verdict, a time-out and a real output all read as an output. */
  datatype CallOutcome =
    | CallInterrupted
    | Output(content: string, isError: bool, images: seq<string>)

  datatype Turn = Turn(
    cancelled: bool,
    summary: Option<string>,
    first: Attempt,
    retries: seq<Retry>,
    rescue: Option<string>,
    second: Attempt,
    continuations: seq<Attempt>,
    outcomes: seq<CallOutcome>,
    reminder: Option<string>)

  /** `capable`: tools and provider fit; `accepted`: no hook refuses the prompt; `last`: the final reply. */
  datatype Script = Script(capable: bool, accepted: bool, turns: seq<Turn>, last: Option<Reply>)

  datatype Exit =
    | Refused
    | UserCancelled
    | ModelFailed
    | FinalAnswer(content: string)
    | LimitAnswered(reply: Reply)

  /** What asking the model leads to. */
  datatype Asked = Asked(state: State, answer: Attempt)

  /** A turn either hands over to the next one or ends the send. */
  datatype TurnResult = GoesOn(state: State) | Ends(state: State, exit: Exit)

  datatype Sent = Sent(state: State, exit: Exit)

  function ReplyMessage(r: Reply): Message {
    Message(Assistant, r.content, [], r.calls, None, r.reasoning, r.finish)
  }

  // ---------------------------------------------------------------- one batch of calls

  function TruncateChars(text: string, max: nat): string {
    if |text| <= max then text else text[..max] + TRUNCATED_HEAD + Decimal(max) + TRUNCATED_TAIL
  }

  function ImageMessage(name: string, images: seq<string>): Message {
    var ending := if |images| == 1 then IMAGE_ONE else IMAGE_MANY;
    UserMessage(IMAGE_HEAD + name + IMAGE_MIDDLE + Decimal(|images|) + ending)
      .(images := images)
  }

  function CancelMessages(calls: seq<ToolCall>): seq<Message> {
    if calls == [] then [] else [ToolResult(calls[0].id, CANCELLED)] + CancelMessages(calls[1..])
  }

  function CancelRecords(calls: seq<ToolCall>): seq<Record> {
    if calls == [] then [] else [ToolRecord(calls[0].id, CANCELLED, true, true)] + CancelRecords(calls[1..])
  }

  function OutputMessages(call: ToolCall, out: CallOutcome): seq<Message>
    requires out.Output?
  {
    [ToolResult(call.id, TruncateChars(out.content, TOOL_RESULT_MAX_CHARS))]
    + (if out.images == [] then [] else [ImageMessage(call.name, out.images)])
  }

  function OutputRecord(call: ToolCall, out: CallOutcome): Record
    requires out.Output?
  {
    ToolRecord(call.id, TruncateChars(out.content, TOOL_RESULT_MAX_CHARS), out.isError, false)
  }

  predicate Stops(outcomes: seq<CallOutcome>) {
    outcomes == [] || outcomes[0].CallInterrupted?
  }

  function BatchMessages(calls: seq<ToolCall>, outcomes: seq<CallOutcome>): seq<Message> {
    if calls == [] then []
    else if Stops(outcomes) then CancelMessages(calls)
    else OutputMessages(calls[0], outcomes[0]) + BatchMessages(calls[1..], outcomes[1..])
  }

  function BatchRecords(calls: seq<ToolCall>, outcomes: seq<CallOutcome>): seq<Record> {
    if calls == [] then []
    else if Stops(outcomes) then CancelRecords(calls)
    else [OutputRecord(calls[0], outcomes[0])] + BatchRecords(calls[1..], outcomes[1..])
  }

  predicate BatchStopped(calls: seq<ToolCall>, outcomes: seq<CallOutcome>) {
    calls != [] && (Stops(outcomes) || BatchStopped(calls[1..], outcomes[1..]))
  }

  // ---------------------------------------------------------------- one turn

  function AutoCompacted(c: Config, s: State, summary: Option<string>): State {
    var r := AutoCompact(c.thresholds, s.history, s.futile, summary);
    s.(history := r.history, futile := r.futile, summaries := s.summaries + r.summaries)
  }

  function Assemble(s: State): State {
    s.(assembled := s.assembled + [s.history])
  }

  /** Network errors are waited out: each retry builds a request anew. A script without a retry left is a budget run out. */
  function Patience(s: State, attempt: Attempt, retries: seq<Retry>): Asked
    decreases |retries|
  {
    if !attempt.Failed? || !attempt.network || retries == [] then Asked(s, attempt)
    else
      match retries[0]
      case PauseCancelled => Asked(s, Interrupted)
      case Resent(again) => Patience(Assemble(s), again, retries[1..])
  }

  /** After a recoverable failure: the fold, or the rebuilt request, and one more attempt. */
  function Rescue(s: State, failed: Attempt, t: Turn): Asked
    requires failed.Failed?
  {
    if failed.overflow && !s.futile then
      match FoldHistory(s.history, t.rescue)
      case NothingToFold => Asked(Assemble(s), t.second)
      case SummariserFailed => Asked(s.(summaries := s.summaries + 1), failed)
      case Folded(f, _) => Asked(Assemble(s.(history := f, summaries := s.summaries + 1)), t.second)
    else if failed.toolPair then Asked(Assemble(s), t.second)
    else Asked(s, failed)
  }

  /** The first attempt, waited for if the network fails, or the one retry after a recoverable failure. */
  function Ask(s: State, t: Turn): Asked {
    var asked := Patience(Assemble(s), t.first, t.retries);
    if asked.answer.Failed? then Rescue(asked.state, asked.answer, t) else asked
  }

  predicate WantsContinuation(r: Reply) {
    r.finish == Some("length") && !IsBlank(r.content)
  }

  function Join(r: Reply, part: Reply): Reply {
    r.(content := r.content + part.content,
       finish := part.finish,
       reasoning := if part.reasoning.Some? then part.reasoning else r.reasoning)
  }

  /** A truncated final answer is continued at most `left` times; failures end it softly. */
  function Continue(r: Reply, parts: seq<Attempt>, left: nat): Reply
    decreases left
  {
    if left == 0 || !WantsContinuation(r) || parts == [] || !parts[0].Replied? || parts[0].reply.calls != [] then r
    else Continue(Join(r, parts[0].reply), parts[1..], left - 1)
  }

  /** How many continuation requests are built; each sees the same history. */
  function ContinuationRequests(r: Reply, parts: seq<Attempt>, left: nat): nat
    decreases left
  {
    if left == 0 || !WantsContinuation(r) then 0
    else if parts == [] || !parts[0].Replied? || parts[0].reply.calls != [] then 1
    else 1 + ContinuationRequests(Join(r, parts[0].reply), parts[1..], left - 1)
  }

  function Repeat(h: seq<Message>, n: nat): seq<seq<Message>> {
    if n == 0 then [] else [h] + Repeat(h, n - 1)
  }

  function PushAnswer(s: State, r: Reply, parts: seq<Attempt>): State {
    var full := Continue(r, parts, MAX_LENGTH_CONTINUATIONS);
    s.(history := s.history + [ReplyMessage(full)],
       log := s.log + [AssistantRecord(full.content, None)],
       assembled := s.assembled + Repeat(s.history, ContinuationRequests(r, parts, MAX_LENGTH_CONTINUATIONS)))
  }

  /** The history takes the calls as they came, the journal what redaction leaves of them. */
  function PushBatch(c: Config, s: State, r: Reply, outcomes: seq<CallOutcome>): State {
    s.(history := s.history + [ReplyMessage(r)] + BatchMessages(r.calls, outcomes),
       log := s.log + [AssistantRecord(r.content, Redaction.LoggedCalls(c.redactor, r.calls))]
              + BatchRecords(r.calls, outcomes))
  }

  function PushReminder(s: State, reminder: Option<string>): State {
    if reminder.None? then s else s.(history := s.history + [UserMessage(reminder.value)])
  }

  function TakeTurn(c: Config, s: State, t: Turn): TurnResult {
    if t.cancelled then Ends(s, UserCancelled)
    else
      var asked := Ask(AutoCompacted(c, s, t.summary), t);
      match asked.answer
      case Interrupted => Ends(asked.state, UserCancelled)
      case Failed(_, _, _) => Ends(asked.state, ModelFailed)
      case Replied(r) =>
        if r.calls == [] then
          Ends(PushAnswer(asked.state, r, t.continuations),
               FinalAnswer(Continue(r, t.continuations, MAX_LENGTH_CONTINUATIONS).content))
        else if BatchStopped(r.calls, t.outcomes) then
          Ends(PushBatch(c, asked.state, r, t.outcomes), UserCancelled)
        else GoesOn(PushReminder(PushBatch(c, asked.state, r, t.outcomes), t.reminder))
  }

  // ---------------------------------------------------------------- the whole send

  function LimitExit(s: State, last: Option<Reply>): Sent {
    var s1 := Assemble(s);
    if last.None? then Sent(s1, ModelFailed)
    else
      Sent(s1.(history := s1.history + [ReplyMessage(last.value)],
               log := s1.log + [AssistantRecord(last.value.content, None)]),
           LimitAnswered(last.value))
  }

  function RunTurns(c: Config, s: State, turns: seq<Turn>, left: nat, last: Option<Reply>): Sent
    decreases left
  {
    if left == 0 then LimitExit(s, last)
    else if turns == [] then Sent(s, UserCancelled)
    else
      match TakeTurn(c, s, turns[0])
      case GoesOn(s1) => RunTurns(c, s1, turns[1..], left - 1, last)
      case Ends(s1, exit) => Sent(s1, exit)
  }

  function PushUser(s: State, text: string): State {
    s.(history := s.history + [UserMessage(text)], log := s.log + [UserRecord(text)])
  }

  function Send(c: Config, s: State, input: string, script: Script): Sent {
    if !script.capable || !script.accepted then Sent(s, Refused)
    else RunTurns(c, PushUser(s, input), script.turns, c.maxTurns, script.last)
  }

  // ---------------------------------------------------------------- the other steps

  function InjectedText(source: string, content: string): string {
    INJECTED_HEAD + source + INJECTED_MIDDLE + content
  }

  /** A journal line as the reader sees it: blank or `#`, not JSON, or a record. */
  datatype Line = Skipped | Garbage | Entry(kind: LineKind, content: string)
  datatype LineKind = UserLine | AssistantLine | OtherLine

  function RestoredMessage(line: Line): seq<Message> {
    if !line.Entry? || line.content == [] || line.kind.OtherLine? then []
    else if line.kind.UserLine? then [UserMessage(line.content)]
    else [AssistantMessage(line.content, [])]
  }

  /** Messages restored up to the first line that is not JSON. */
  function RestoredMessages(lines: seq<Line>): seq<Message> {
    if lines == [] || lines[0].Garbage? then [] else RestoredMessage(lines[0]) + RestoredMessages(lines[1..])
  }

  datatype Action =
    | DoSend(input: string, script: Script)
    | DoInject(source: string, content: string)
    | DoRestore(lines: seq<Line>)
    | DoClear
    | DoReset
    | DoCompact(summary: Option<string>)

  /** The forced compaction: masking, then the fold whatever the flag says; a failed fold keeps the masking. */
  function CompactNow(s: State, summary: Option<string>): State {
    var m := Mask(s.history);
    match FoldHistory(m, summary)
    case NothingToFold => s.(history := m)
    case SummariserFailed => s.(history := m, summaries := s.summaries + 1)
    case Folded(f, _) => s.(history := f, summaries := s.summaries + 1)
  }

  function Step(c: Config, s: State, a: Action): State {
    match a
    case DoSend(input, script) => Send(c, s, input, script).state
    case DoInject(source, content) => PushUser(s, InjectedText(source, content))
    case DoRestore(lines) => s.(history := s.history + RestoredMessages(lines))
    case DoClear => s.(history := [], futile := false)
    case DoReset => s.(history := [], futile := false, log := [])
    case DoCompact(summary) => CompactNow(s, summary)
  }

  function RunActions(c: Config, s: State, actions: seq<Action>): State
    decreases |actions|
  {
    if actions == [] then s else RunActions(c, Step(c, s, actions[0]), actions[1..])
  }
}
