/** The stream integrity engine: text passes through frame by frame, tool-call fragments
    are buffered per (choice, tool index), and terminal frames are built only when the whole
    stream validates. The functions say what one frame and the end of the stream do; the class
    does it in place and is proved against them. */
module StreamIntegrity {
  import opened Collections
  import opened Frames

  const MAX_TOOL_BYTES: nat := 1048576
  const MAX_TOOLS: nat := 128
  const MAX_CHOICES: nat := 32

  datatype Reason =
    | InvalidJson | UpstreamErrorObject | InvalidChunk | InvalidChoices | InvalidChoice | InvalidChoiceIndex
    | ChoiceLimit | ChoiceAfterFinish | InvalidDelta | InvalidTextDelta | MixedToolProtocol | InvalidLegacyTool
    | InvalidToolArray | InvalidTool | InvalidToolIndex | ToolLimit | InvalidToolField | ToolIdentityChanged
    | InvalidToolFunction | ToolBufferLimit | InvalidFinish | UnknownFinish
    | EmptyStream | MissingFinish | FinishWithoutTool | InvalidToolName | InvalidToolArguments | InvalidToolType
    | InvalidToolId | InvalidEnvelope | ReadFailure | UpstreamRefusal | HostEmitFailed

  /** What has been buffered for one tool index; "" means not seen yet. */
  datatype ToolBuffer = ToolBuffer(id: string, kind: string, name: string, args: string)

  datatype ChoiceState = ChoiceState(finish: string, tools: map<nat, ToolBuffer>)

  datatype State = State(choices: map<nat, ChoiceState>, frames: nat, textBytes: nat, reasoningBytes: nat,
                         toolBytes: nat, tools: nat, finishes: nat)

  const INITIAL := State(map[], 0, 0, 0, 0, 0, 0)
  const NEW_TOOL := ToolBuffer("", "", "", "")
  const NEW_CHOICE := ChoiceState("", map[])

  /** The outcome of a checked step; a failed step also leaves a (partly updated) state. */
  datatype Step<+T> = Ok(state: State, value: T) | Fail(state: State, reason: Reason) {
    predicate IsFailure() { Fail? }
    function PropagateFailure<U>(): Step<U>
      requires Fail?
    {
      Fail(state, reason)
    }
    function Extract(): (State, T)
      requires Ok?
    {
      (state, value)
    }
  }

  // ----- one tool-call fragment

  function OpenTool(s: State, i: nat, t: nat): State
    requires i in s.choices
  {
    var c := s.choices[i];
    if t in c.tools then s
    else s.(choices := s.choices[i := c.(tools := c.tools[t := NEW_TOOL])], tools := s.tools + 1)
  }

  function PutTool(s: State, i: nat, t: nat, buffer: ToolBuffer): State
    requires i in s.choices
  {
    var c := s.choices[i];
    s.(choices := s.choices[i := c.(tools := c.tools[t := buffer])])
  }

  /** An id or type fragment: it may repeat the first one seen but never change it. */
  function CheckLabel(s: State, prev: string, f: Field<string>): Step<()> {
    match f
    case Wrong(_) => Fail(s, InvalidToolField)
    case Is(text) =>
      if text == "" then Ok(s, ())
      else if prev != "" && prev != text then Fail(s, ToolIdentityChanged)
      else Ok(s.(toolBytes := s.toolBytes + |text|), ())
    case _ => Ok(s, ())
  }

  function CheckFragment(s: State, f: Field<string>): Step<()> {
    if f.Wrong? then Fail(s, InvalidToolField) else Ok(s.(toolBytes := s.toolBytes + |Str(f)|), ())
  }

  function CheckFunction(s: State, f: Field<Function>): Step<()> {
    match f
    case Wrong(_) => Fail(s, InvalidToolFunction)
    case Is(fn) =>
      var (s1, _) :- CheckFragment(s, fn.name);
      CheckFragment(s1, fn.arguments)
    case _ => Ok(s, ())
  }

  /** Scalars are taken when first seen; name and argument fragments are appended. */
  function Merge(prev: ToolBuffer, call: Call): ToolBuffer
    requires call.Call?
  {
    var fn := if call.fn.Is? then call.fn.value else Function(Absent, Absent, false);
    ToolBuffer(if prev.id == "" then Str(call.id) else prev.id,
               if prev.kind == "" then Str(call.kind) else prev.kind,
               prev.name + Str(fn.name),
               prev.args + Str(fn.arguments))
  }

  /** Checks a fragment against what is buffered, and the total against the byte limit. */
  function CheckCall(s: State, prev: ToolBuffer, call: Call): (r: Step<()>)
    requires call.Call?
    ensures r.state == s.(toolBytes := r.state.toolBytes)
  {
    var (s1, _) :- CheckLabel(s, prev.id, call.id);
    var (s2, _) :- CheckLabel(s1, prev.kind, call.kind);
    var (s3, _) :- CheckFunction(s2, call.fn);
    if s3.toolBytes > MAX_TOOL_BYTES then Fail(s3, ToolBufferLimit) else Ok(s3, ())
  }

  function FeedCall(s: State, i: nat, call: Call): Step<()>
    requires i in s.choices
  {
    if call.NotACall? then Fail(s, InvalidTool)
    else if IndexOf(call.index).None? then Fail(s, InvalidToolIndex)
    else
      var t := IndexOf(call.index).value;
      if t !in s.choices[i].tools && s.tools >= MAX_TOOLS then Fail(s, ToolLimit)
      else
        var ready := OpenTool(s, i, t);
        var prev := ready.choices[i].tools[t];
        var (checked, _) :- CheckCall(ready, prev, call);
        Ok(PutTool(checked, i, t, Merge(prev, call)), ())
  }

  function FeedCalls(s: State, i: nat, calls: seq<Call>): (r: Step<()>)
    requires i in s.choices
    ensures r.state.choices.Keys == s.choices.Keys
    decreases |calls|
  {
    if calls == [] then Ok(s, ())
    else
      var (s1, _) :- FeedCall(s, i, calls[0]);
      FeedCalls(s1, i, calls[1..])
  }

  // ----- one choice

  function OpenChoice(s: State, i: nat): State {
    if i in s.choices then s else s.(choices := s.choices[i := NEW_CHOICE])
  }

  function DeltaOf(f: Field<Delta>): Delta {
    if f.Is? then f.value else NO_DELTA
  }

  function CountText(s: State, d: Delta): Step<()> {
    if d.content.Wrong? then Fail(s, InvalidTextDelta)
    else
      var s1 := s.(textBytes := s.textBytes + |Str(d.content)|);
      if d.reasoning.Wrong? then Fail(s1, InvalidTextDelta)
      else Ok(s1.(reasoningBytes := s1.reasoningBytes + |Str(d.reasoning)|), ())
  }

  /** A legacy function_call becomes tool call 0, unless it is an empty shell. */
  function LegacyAsCall(fn: Function): Call {
    Call(Is(0.0), Absent, Is("function"), Is(fn))
  }

  function Normalized(d: Delta): Result<Field<seq<Call>>, Reason> {
    if EmptyLegacy(d.legacy) then Success(d.calls)
    else if !d.calls.Absent? then Failure(MixedToolProtocol)
    else if !d.legacy.Is? then Failure(InvalidLegacyTool)
    else Success(Is([LegacyAsCall(d.legacy.value)]))
  }

  function FeedTools(s: State, i: nat, d: Delta): (r: Step<()>)
    requires i in s.choices
    ensures r.state.choices.Keys == s.choices.Keys
  {
    match Normalized(d)
    case Failure(reason) => Fail(s, reason)
    case Success(calls) =>
      if calls.Wrong? then Fail(s, InvalidToolArray)
      else if calls.Is? then FeedCalls(s, i, calls.value)
      else Ok(s, ())
  }

  predicate KnownFinish(f: string) {
    f == "stop" || f == "tool_calls" || f == "function_call" || f == "length" || f == "content_filter"
  }

  function FeedFinish(s: State, i: nat, f: Field<string>): Step<()>
    requires i in s.choices
  {
    if f.Wrong? then Fail(s, InvalidFinish)
    else if Str(f) == "" then Ok(s, ())
    else if !KnownFinish(Str(f)) then Fail(s, UnknownFinish)
    else Ok(s.(choices := s.choices[i := s.choices[i].(finish := Str(f))], finishes := s.finishes + 1), ())
  }

  /** What the client may see of a choice right away: no tool call, no finish. */
  function Visible(c: Choice): seq<Choice>
    requires c.Choice?
  {
    var d := DeltaOf(c.delta).(legacy := Absent, calls := Absent);
    if d == NO_DELTA then [] else [c.(delta := Is(d), finish := Absent)]
  }

  function FeedChoice(s: State, seen: set<nat>, c: Choice): Step<set<nat>> {
    if c.NotAnObject? then Fail(s, InvalidChoice)
    else if IndexOf(c.index).None? || IndexOf(c.index).value in seen then Fail(s, InvalidChoiceIndex)
    else
      var i := IndexOf(c.index).value;
      if i !in s.choices && |s.choices| >= MAX_CHOICES then Fail(s, ChoiceLimit)
      else
        var s1 := OpenChoice(s, i);
        if s1.choices[i].finish != "" then Fail(s1, ChoiceAfterFinish)
        else if c.delta.Wrong? then Fail(s1, InvalidDelta)
        else
          var d := DeltaOf(c.delta);
          var (s2, _) :- CountText(s1, d);
          var (s3, _) :- FeedTools(s2, i, d);
          var (s4, _) :- FeedFinish(s3, i, c.finish);
          Ok(s4, seen + {i})
  }

  function FeedChoices(s: State, seen: set<nat>, cs: seq<Choice>): Step<seq<Choice>>
    decreases |cs|
  {
    if cs == [] then Ok(s, [])
    else
      var (s1, seen1) :- FeedChoice(s, seen, cs[0]);
      var (s2, visible) :- FeedChoices(s1, seen1, cs[1..]);
      Ok(s2, Visible(cs[0]) + visible)
  }

  // ----- the per-frame sanitizer

  function CleanDelta(d: Delta): Delta {
    d.(legacy := if EmptyLegacy(d.legacy) then Absent else d.legacy,
       calls := if d.calls == Is([]) then Absent else d.calls,
       extraFields := if EmptyOpaque(d.extraFields) then Absent else d.extraFields,
       refusal := if EmptyOpaque(d.refusal) then Absent else d.refusal,
       reasoning := if EmptyString(d.reasoning) then Absent else d.reasoning)
  }

  function CleanChoice(c: Choice): Result<seq<Choice>, Reason> {
    if c.NotAnObject? then Failure(InvalidChoice)
    else if !c.delta.Is? then Success([c])
    else
      var d := CleanDelta(c.delta.value);
      Success(if d == NO_DELTA && Str(c.finish) == "" then [] else [c.(delta := Is(d))])
  }

  function CleanChoices(cs: seq<Choice>): Result<seq<Choice>, Reason> {
    if cs == [] then Success([])
    else
      match CleanChoice(cs[0])
      case Failure(reason) => Failure(reason)
      case Success(first) =>
        match CleanChoices(cs[1..])
        case Failure(reason) => Failure(reason)
        case Success(rest) => Success(first + rest)
  }

  /** Strips empty padding; None when nothing is left to emit. */
  function Clean(f: Frame): Result<Option<Frame>, Reason> {
    if f.NotJson? then Failure(InvalidJson)
    else if ErrorObject(f) then Failure(UpstreamErrorObject)
    else if !f.choices.Is? then Success(Some(f))
    else
      match CleanChoices(f.choices.value)
      case Failure(reason) => Failure(reason)
      case Success(kept) =>
        if kept == [] && f.usage.Absent? then Success(None) else Success(Some(f.(choices := Is(kept))))
  }

  // ----- one frame

  /** Why a frame is refused before its choices are looked at. */
  function FrameFault(f: Frame): Option<Reason> {
    if f.NotJson? then Some(InvalidJson)
    else if ErrorObject(f) then Some(UpstreamErrorObject)
    else if f.choices.Absent? then (if f.usage.Absent? then Some(InvalidChunk) else None)
    else if !f.choices.Is? then Some(InvalidChoices)
    else None
  }

  function Feed(s: State, f: Frame): Step<Option<Frame>> {
    var s0 := s.(frames := s.frames + 1);
    if FrameFault(f).Some? then Fail(s0, FrameFault(f).value)
    else if f.choices.Absent? then Ok(s0, Some(f))
    else ShowFed(f, FeedChoices(s0, {}, f.choices.value))
  }

  function ShowFed(f: Frame, fed: Step<seq<Choice>>): Step<Option<Frame>>
    requires f.Frame?
  {
    var (s, visible) :- fed;
    Show(s, f, visible)
  }

  /** Rebuilds the frame around its visible choices and cleans it. */
  function Show(s: State, f: Frame, visible: seq<Choice>): Step<Option<Frame>>
    requires f.Frame?
  {
    if visible == [] && f.usage.Absent? then Ok(s, None)
    else
      match Clean(f.(choices := Is(visible)))
      case Failure(reason) => Fail(s, reason)
      case Success(out) => Ok(s, out)
  }

  // ----- the end of the stream

  /** What the engine takes from its surroundings: the JSON object test on argument strings,
      the Unicode space trimming of ids and roles, and the per-stream nonce in hexadecimal. */
  datatype Env = Env(isObject: string -> bool, trim: string -> string, nonce: string)

  function Digits(n: nat): (r: string)
    ensures r != "" && '_' !in r
  {
    var d := "0123456789"[n % 10];
    if n < 10 then [d] else Digits(n / 10) + [d]
  }

  function FallbackId(env: Env, i: nat, t: nat): string {
    "call_qoder_" + env.nonce + "_" + Digits(i) + "_" + Digits(t)
  }

  function CallId(env: Env, i: nat, t: nat, b: ToolBuffer): string {
    if b.id == "" then FallbackId(env, i, t) else b.id
  }

  predicate NameChar(c: char) {
    'a' <= c <= 'z' || 'A' <= c <= 'Z' || '0' <= c <= '9' || c == '_' || c == '-' || c == '.' || c == ':'
  }

  predicate ValidName(s: string) {
    1 <= |s| <= 128 && forall c | c in s :: NameChar(c)
  }

  predicate ValidId(env: Env, id: string) {
    |id| <= 256 && env.trim(id) == id && forall c | c in id :: c != '\r' && c != '\n' && c != '\t' && c != ' '
  }

  predicate Truncated(finish: string) {
    finish == "length" || finish == "content_filter"
  }

  predicate NeedsTool(finish: string) {
    finish == "tool_calls" || finish == "function_call"
  }

  function TerminalCall(env: Env, i: nat, t: nat, b: ToolBuffer): Call {
    Call(Is(t as real), Is(CallId(env, i, t, b)), Is("function"), Is(Function(Is(b.name), Is(b.args), false)))
  }

  /** Validates one buffered tool against the ids used so far. */
  function EndTool(env: Env, i: nat, t: nat, b: ToolBuffer, ids: set<string>): Result<Call, Reason> {
    if !ValidName(b.name) then Failure(InvalidToolName)
    else if !env.isObject(b.args) then Failure(InvalidToolArguments)
    else if b.kind != "" && b.kind != "function" then Failure(InvalidToolType)
    else if !ValidId(env, CallId(env, i, t, b)) || CallId(env, i, t, b) in ids then Failure(InvalidToolId)
    else Success(TerminalCall(env, i, t, b))
  }

  /** Validates the tools of choice i in the given order; ids carries the ids used so far. */
  function EndTools(env: Env, i: nat, tools: map<nat, ToolBuffer>, order: seq<nat>, ids: set<string>)
    : Result<(seq<Call>, set<string>), Reason>
    requires forall t | t in order :: t in tools
  {
    if order == [] then Success(([], ids))
    else
      var t := order[0];
      match EndTool(env, i, t, tools[t], ids)
      case Failure(reason) => Failure(reason)
      case Success(call) =>
        match EndTools(env, i, tools, order[1..], ids + {CallId(env, i, t, tools[t])})
        case Failure(reason) => Failure(reason)
        case Success(rest) => Success(([call] + rest.0, rest.1))
  }

  function EndChoice(env: Env, i: nat, c: ChoiceState, ids: set<string>): Result<(seq<Call>, set<string>), Reason> {
    if c.finish == "" then Failure(MissingFinish)
    else if Truncated(c.finish) then Success(([], ids))
    else if c.tools == map[] && NeedsTool(c.finish) then Failure(FinishWithoutTool)
    else EndTools(env, i, c.tools, Ascending(c.tools.Keys), ids)
  }

  function Terminal(i: nat, finish: string, calls: seq<Call>): Frame {
    var d := if calls == [] then NO_DELTA else NO_DELTA.(calls := Is(calls));
    Frame(Absent, Absent, Absent, Absent, Is([Choice(Is(i as real), Is(d), Is(finish))]))
  }

  function EndChoices(env: Env, choices: map<nat, ChoiceState>, order: seq<nat>, ids: set<string>)
    : Result<seq<Frame>, Reason>
    requires forall i | i in order :: i in choices
  {
    if order == [] then Success([])
    else
      match EndChoice(env, order[0], choices[order[0]], ids)
      case Failure(reason) => Failure(reason)
      case Success(done) =>
        match EndChoices(env, choices, order[1..], done.1)
        case Failure(reason) => Failure(reason)
        case Success(rest) => Success([Terminal(order[0], choices[order[0]].finish, done.0)] + rest)
  }

  function End(env: Env, s: State): Result<seq<Frame>, Reason> {
    if s.choices == map[] then Failure(EmptyStream)
    else EndChoices(env, s.choices, Ascending(s.choices.Keys), {})
  }

  // ----- the engine itself

  /** A step whose value continues an already collected list. */
  ghost function Prepend(done: seq<Choice>, rest: Step<seq<Choice>>): Step<seq<Choice>> {
    if rest.Fail? then rest else Ok(rest.state, done + rest.value)
  }

  ghost function PrependCalls(done: seq<Call>, rest: Result<(seq<Call>, set<string>), Reason>)
    : Result<(seq<Call>, set<string>), Reason>
  {
    if rest.Failure? then rest else Success((done + rest.value.0, rest.value.1))
  }

  ghost function PrependFrames(done: seq<Frame>, rest: Result<seq<Frame>, Reason>): Result<seq<Frame>, Reason> {
    if rest.Failure? then rest else Success(done + rest.value)
  }

  lemma PrependChoice(done: seq<Choice>, next: seq<Choice>, rest: Step<seq<Choice>>)
    ensures Prepend([], rest) == rest
    ensures rest.Ok? ==> Prepend(done, Ok(rest.state, next + rest.value)) == Prepend(done + next, rest)
  {
    if rest.Ok? {
      assert [] + rest.value == rest.value;
      assert done + (next + rest.value) == done + next + rest.value;
    }
  }

  lemma PrependCall(done: seq<Call>, next: Call, rest: Result<(seq<Call>, set<string>), Reason>)
    ensures PrependCalls([], rest) == rest
    ensures rest.Success? ==>
      PrependCalls(done, Success(([next] + rest.value.0, rest.value.1))) == PrependCalls(done + [next], rest)
  {
    if rest.Success? {
      assert [] + rest.value.0 == rest.value.0;
      assert done + ([next] + rest.value.0) == done + [next] + rest.value.0;
    }
  }

  lemma PrependFrame(done: seq<Frame>, next: Frame, rest: Result<seq<Frame>, Reason>)
    ensures PrependFrames([], rest) == rest
    ensures rest.Success? ==> PrependFrames(done, Success([next] + rest.value)) == PrependFrames(done + [next], rest)
  {
    if rest.Success? {
      assert [] + rest.value == rest.value;
      assert done + ([next] + rest.value) == done + [next] + rest.value;
    }
  }

  ghost function Failed<T>(step: Step<T>): Option<Reason> {
    if step.Fail? then Some(step.reason) else None
  }

  class Engine {
    var choices: map<nat, ChoiceState>
    var frames: nat
    var textBytes: nat
    var reasoningBytes: nat
    var toolBytes: nat
    var tools: nat
    var finishes: nat

    ghost function Now(): State
      reads this
    {
      State(choices, frames, textBytes, reasoningBytes, toolBytes, tools, finishes)
    }

    constructor ()
      ensures Now() == INITIAL
    {
      choices, frames, textBytes, reasoningBytes, toolBytes, tools, finishes := map[], 0, 0, 0, 0, 0, 0;
    }

    /** Counts an id or type fragment against the first one seen. */
    method NoteLabel(prev: string, f: Field<string>) returns (bad: Option<Reason>)
      modifies this
      ensures Now() == CheckLabel(old(Now()), prev, f).state && bad == Failed(CheckLabel(old(Now()), prev, f))
    {
      if f.Wrong? { return Some(InvalidToolField); }
      if f.Is? && f.value != "" {
        if prev != "" && prev != f.value { return Some(ToolIdentityChanged); }
        toolBytes := toolBytes + |f.value|;
      }
      bad := None;
    }

    method NoteFunction(f: Field<Function>) returns (bad: Option<Reason>)
      modifies this
      ensures Now() == CheckFunction(old(Now()), f).state && bad == Failed(CheckFunction(old(Now()), f))
    {
      if f.Wrong? { return Some(InvalidToolFunction); }
      if f.Is? {
        if f.value.name.Wrong? { return Some(InvalidToolField); }
        toolBytes := toolBytes + |Str(f.value.name)|;
        if f.value.arguments.Wrong? { return Some(InvalidToolField); }
        toolBytes := toolBytes + |Str(f.value.arguments)|;
      }
      bad := None;
    }

    method NoteCall(prev: ToolBuffer, call: Call) returns (bad: Option<Reason>)
      requires call.Call?
      modifies this
      ensures Now() == CheckCall(old(Now()), prev, call).state && bad == Failed(CheckCall(old(Now()), prev, call))
    {
      bad := NoteLabel(prev.id, call.id);
      if bad.Some? { return; }
      bad := NoteLabel(prev.kind, call.kind);
      if bad.Some? { return; }
      bad := NoteFunction(call.fn);
      if bad.Some? { return; }
      if toolBytes > MAX_TOOL_BYTES { return Some(ToolBufferLimit); }
    }

    method FeedTool(i: nat, call: Call) returns (bad: Option<Reason>)
      requires i in choices
      modifies this
      ensures Now() == FeedCall(old(Now()), i, call).state && bad == Failed(FeedCall(old(Now()), i, call))
    {
      if call.NotACall? { return Some(InvalidTool); }
      var index := IndexOf(call.index);
      if index.None? { return Some(InvalidToolIndex); }
      var t := index.value;
      if t !in choices[i].tools {
        if tools >= MAX_TOOLS { return Some(ToolLimit); }
        choices := choices[i := choices[i].(tools := choices[i].tools[t := NEW_TOOL])];
        tools := tools + 1;
      }
      var merged := choices[i].tools[t];
      assert Now() == OpenTool(old(Now()), i, t);
      bad := NoteCall(merged, call);
      if bad.Some? { return; }
      choices := choices[i := choices[i].(tools := choices[i].tools[t := Merge(merged, call)])];
    }

    method FeedToolCalls(i: nat, calls: seq<Call>) returns (bad: Option<Reason>)
      requires i in choices
      modifies this
      ensures Now() == FeedCalls(old(Now()), i, calls).state && bad == Failed(FeedCalls(old(Now()), i, calls))
    {
      ghost var start := Now();
      bad := None;
      assert calls[0..] == calls;
      for k := 0 to |calls|
        invariant i in choices && bad == None
        invariant FeedCalls(start, i, calls) == FeedCalls(Now(), i, calls[k..])
      {
        assert calls[k..][0] == calls[k] && calls[k..][1..] == calls[k + 1..];
        bad := FeedTool(i, calls[k]);
        if bad.Some? { return; }
      }
    }

    method NoteText(d: Delta) returns (bad: Option<Reason>)
      modifies this
      ensures Now() == CountText(old(Now()), d).state && bad == Failed(CountText(old(Now()), d))
    {
      if d.content.Wrong? { return Some(InvalidTextDelta); }
      textBytes := textBytes + |Str(d.content)|;
      if d.reasoning.Wrong? { return Some(InvalidTextDelta); }
      reasoningBytes := reasoningBytes + |Str(d.reasoning)|;
      bad := None;
    }

    method FeedDeltaTools(i: nat, d: Delta) returns (bad: Option<Reason>)
      requires i in choices
      modifies this
      ensures Now() == FeedTools(old(Now()), i, d).state && bad == Failed(FeedTools(old(Now()), i, d))
    {
      var calls := d.calls;
      if !EmptyLegacy(d.legacy) {
        if !calls.Absent? { return Some(MixedToolProtocol); }
        if !d.legacy.Is? { return Some(InvalidLegacyTool); }
        calls := Is([LegacyAsCall(d.legacy.value)]);
      }
      if calls.Wrong? { return Some(InvalidToolArray); }
      bad := None;
      if calls.Is? {
        bad := FeedToolCalls(i, calls.value);
      }
    }

    method NoteFinish(i: nat, f: Field<string>) returns (bad: Option<Reason>)
      requires i in choices
      modifies this
      ensures Now() == FeedFinish(old(Now()), i, f).state && bad == Failed(FeedFinish(old(Now()), i, f))
    {
      if f.Wrong? { return Some(InvalidFinish); }
      bad := None;
      if Str(f) != "" {
        if !KnownFinish(Str(f)) { return Some(UnknownFinish); }
        choices := choices[i := choices[i].(finish := Str(f))];
        finishes := finishes + 1;
      }
    }

    /** Checks one choice of a frame; seen holds the indices this frame already used. */
    method FeedOneChoice(seen: set<nat>, c: Choice) returns (bad: Option<Reason>, seen': set<nat>)
      modifies this
      ensures Now() == FeedChoice(old(Now()), seen, c).state && bad == Failed(FeedChoice(old(Now()), seen, c))
      ensures bad.None? ==> seen' == FeedChoice(old(Now()), seen, c).value
    {
      seen' := seen;
      if c.NotAnObject? { return Some(InvalidChoice), seen; }
      var index := IndexOf(c.index);
      if index.None? || index.value in seen { return Some(InvalidChoiceIndex), seen; }
      var i := index.value;
      seen' := seen + {i};
      if i !in choices {
        if |choices| >= MAX_CHOICES { return Some(ChoiceLimit), seen'; }
        choices := choices[i := NEW_CHOICE];
      }
      if choices[i].finish != "" { return Some(ChoiceAfterFinish), seen'; }
      if c.delta.Wrong? { return Some(InvalidDelta), seen'; }
      var d := DeltaOf(c.delta);
      bad := NoteText(d);
      if bad.Some? { return; }
      bad := FeedDeltaTools(i, d);
      if bad.Some? { return; }
      bad := NoteFinish(i, c.finish);
    }

    method FeedFrameChoices(cs: seq<Choice>) returns (bad: Option<Reason>, visible: seq<Choice>)
      modifies this
      ensures Now() == FeedChoices(old(Now()), {}, cs).state && bad == Failed(FeedChoices(old(Now()), {}, cs))
      ensures bad.None? ==> visible == FeedChoices(old(Now()), {}, cs).value
    {
      var seen := {};
      visible := [];
      bad := None;
      ghost var start := Now();
      assert cs[0..] == cs;
      PrependChoice([], [], FeedChoices(start, {}, cs));
      for k := 0 to |cs|
        invariant bad == None
        invariant FeedChoices(start, {}, cs) == Prepend(visible, FeedChoices(Now(), seen, cs[k..]))
      {
        assert cs[k..][0] == cs[k] && cs[k..][1..] == cs[k + 1..];
        bad, seen := FeedOneChoice(seen, cs[k]);
        if bad.Some? { return; }
        PrependChoice(visible, Visible(cs[k]), FeedChoices(Now(), seen, cs[k + 1..]));
        visible := visible + Visible(cs[k]);
      }
    }

    /** One frame: either a failure or the frame to show the client now, if any. */
    method FeedFrame(f: Frame) returns (bad: Option<Reason>, out: Option<Frame>)
      modifies this
      ensures Now() == Feed(old(Now()), f).state && bad == Failed(Feed(old(Now()), f))
      ensures bad.None? ==> out == Feed(old(Now()), f).value
    {
      frames := frames + 1;
      var fault := FrameFault(f);
      if fault.Some? { assert Feed(old(Now()), f) == Fail(Now(), fault.value); return fault, None; }
      if f.choices.Absent? { assert Feed(old(Now()), f) == Ok(Now(), Some(f)); return None, Some(f); }
      ghost var fed := ShowFed(f, FeedChoices(Now(), {}, f.choices.value));
      assert Feed(old(Now()), f) == fed;
      bad, out := FeedFrameBody(f);
    }

    method FeedFrameBody(f: Frame) returns (bad: Option<Reason>, out: Option<Frame>)
      requires f.Frame? && f.choices.Is?
      modifies this
      ensures Now() == ShowFed(f, FeedChoices(old(Now()), {}, f.choices.value)).state
      ensures bad == Failed(ShowFed(f, FeedChoices(old(Now()), {}, f.choices.value)))
      ensures bad.None? ==> out == ShowFed(f, FeedChoices(old(Now()), {}, f.choices.value)).value
    {
      var visible;
      bad, visible := FeedFrameChoices(f.choices.value);
      out := None;
      if bad.Some? { return; }
      bad, out := ShowFrame(f, visible);
    }

    method ShowFrame(f: Frame, visible: seq<Choice>) returns (bad: Option<Reason>, out: Option<Frame>)
      requires f.Frame?
      ensures bad == Failed(Show(Now(), f, visible))
      ensures bad.None? ==> out == Show(Now(), f, visible).value
    {
      if visible == [] && f.usage.Absent? { return None, None; }
      var cleaned := Clean(f.(choices := Is(visible)));
      if cleaned.Failure? { return Some(cleaned.error), None; }
      return None, cleaned.value;
    }

    /** Transactional end: no terminal frame is returned until every choice and tool passed. */
    method Finish(env: Env) returns (r: Result<seq<Frame>, Reason>)
      ensures r == End(env, Now())
    {
      if choices == map[] { return Failure(EmptyStream); }
      r := FinishChoices(env, Ascending(choices.Keys));
    }

    method FinishChoices(env: Env, indices: seq<nat>) returns (r: Result<seq<Frame>, Reason>)
      requires forall i | i in indices :: i in choices
      ensures r == EndChoices(env, choices, indices, {})
    {
      var out, ids := [], {};
      assert indices[0..] == indices;
      PrependFrame([], NotJson, EndChoices(env, choices, indices, {}));
      for k := 0 to |indices|
        invariant EndChoices(env, choices, indices, {})
          == PrependFrames(out, EndChoices(env, choices, indices[k..], ids))
      {
        assert indices[k..][0] == indices[k] && indices[k..][1..] == indices[k + 1..];
        var i := indices[k];
        var checked := FinishChoice(env, i, ids);
        if checked.Failure? { return Failure(checked.error); }
        PrependFrame(out, Terminal(i, choices[i].finish, checked.value.0),
                     EndChoices(env, choices, indices[k + 1..], checked.value.1));
        out := out + [Terminal(i, choices[i].finish, checked.value.0)];
        ids := checked.value.1;
      }
      assert indices[|indices|..] == [] && out + [] == out;
      r := Success(out);
    }

    method FinishChoice(env: Env, i: nat, ids: set<string>) returns (r: Result<(seq<Call>, set<string>), Reason>)
      requires i in choices
      ensures r == EndChoice(env, i, choices[i], ids)
    {
      var c := choices[i];
      if c.finish == "" { return Failure(MissingFinish); }
      if Truncated(c.finish) { return Success(([], ids)); }
      if c.tools == map[] && NeedsTool(c.finish) { return Failure(FinishWithoutTool); }
      r := FinishTools(env, i, c.tools, Ascending(c.tools.Keys), ids);
    }

    method FinishTools(env: Env, i: nat, tools: map<nat, ToolBuffer>, order: seq<nat>, ids: set<string>)
      returns (r: Result<(seq<Call>, set<string>), Reason>)
      requires forall t | t in order :: t in tools
      ensures r == EndTools(env, i, tools, order, ids)
    {
      var calls, used := [], ids;
      assert order[0..] == order;
      PrependCall([], NotACall, EndTools(env, i, tools, order, ids));
      for k := 0 to |order|
        invariant EndTools(env, i, tools, order, ids) == PrependCalls(calls, EndTools(env, i, tools, order[k..], used))
      {
        assert order[k..][0] == order[k] && order[k..][1..] == order[k + 1..];
        var t := order[k];
        var b := tools[t];
        var id := CallId(env, i, t, b);
        if !ValidName(b.name) { return Failure(InvalidToolName); }
        if !env.isObject(b.args) { return Failure(InvalidToolArguments); }
        if b.kind != "" && b.kind != "function" { return Failure(InvalidToolType); }
        if !ValidId(env, id) || id in used { return Failure(InvalidToolId); }
        PrependCall(calls, TerminalCall(env, i, t, b), EndTools(env, i, tools, order[k + 1..], used + {id}));
        used := used + {id};
        calls := calls + [TerminalCall(env, i, t, b)];
      }
      assert order[|order|..] == [] && calls + [] == calls;
      r := Success((calls, used));
    }
  }
}
