/** The acceptance boundary: lines in, emitted frames out. Live streaming, collection and the
    fold all go through it, and terminals leave it only when the whole stream validated. */
module StreamWalk {
  import opened Collections
  import opened Frames
  import opened StreamIntegrity
  import opened StreamMeaning
  import opened StreamFold

  /** A decoded line: nothing to do, the end marker, a malformed line, a refusal by the
      gateway, or a frame. */
  datatype Line = Skip | Done | BadLine(reason: Reason) | Refused(status: nat) | Body(frame: Frame)

  datatype WalkError = Broken(reason: Reason) | Refusal(status: nat)

  /** The frames up to the first line that ends the walk. */
  function FramesOf(lines: seq<Line>): seq<Frame> {
    if lines == [] then []
    else
      match lines[0]
      case Skip => FramesOf(lines[1..])
      case Body(f) => [f] + FramesOf(lines[1..])
      case _ => []
  }

  /** The error of the line that ended the walk, if it was not the end marker. */
  function StopOf(lines: seq<Line>): Option<WalkError> {
    if lines == [] then None
    else
      match lines[0]
      case Done => None
      case BadLine(reason) => Some(Broken(reason))
      case Refused(status) => Some(Refusal(status))
      case _ => StopOf(lines[1..])
  }

  /** What a walk shows before its end, and why it fails or which terminals it ends with. */
  datatype Outcome = Outcome(shown: seq<Frame>, verdict: Result<seq<Frame>, WalkError>)

  function Ended(env: Env, s: State, readFails: bool): Result<seq<Frame>, WalkError> {
    if readFails then Failure(Broken(ReadFailure))
    else
      match End(env, s)
      case Failure(reason) => Failure(Broken(reason))
      case Success(terminals) => Success(terminals)
  }

  function WalkFrom(env: Env, s: State, lines: seq<Line>, readFails: bool): Outcome
    decreases |lines|
  {
    if lines == [] then Outcome([], Ended(env, s, readFails))
    else
      match lines[0]
      case Done => Outcome([], Ended(env, s, readFails))
      case BadLine(reason) => Outcome([], Failure(Broken(reason)))
      case Refused(status) => Outcome([], Failure(Refusal(status)))
      case Skip => WalkFrom(env, s, lines[1..], readFails)
      case Body(f) =>
        match Feed(s, f)
        case Fail(_, reason) => Outcome([], Failure(Broken(reason)))
        case Ok(s1, out) =>
          var rest := WalkFrom(env, s1, lines[1..], readFails);
          rest.(shown := (if out.Some? then [out.value] else []) + rest.shown)
  }

  /** Everything the walk tries to emit, in order. */
  function Emissions(w: Outcome): seq<Frame> {
    w.shown + (if w.verdict.Success? then w.verdict.value else [])
  }

  function ErrorOf(w: Outcome): Option<WalkError> {
    if w.verdict.Failure? then Some(w.verdict.error) else None
  }

  /** Whether a host that takes room frames (None: every frame) takes n of them. */
  predicate Fits(room: Option<nat>, n: nat) {
    room.Some? ==> n <= room.value
  }

  /** What reaches a host with that much room, and the error the walk reports. */
  ghost predicate Emitted(w: Outcome, room: Option<nat>, emitted: seq<Frame>, error: Option<WalkError>) {
    if Fits(room, |Emissions(w)|) then emitted == Emissions(w) && error == ErrorOf(w)
    else emitted == Emissions(w)[..room.value] && error == Some(Broken(HostEmitFailed))
  }

  /** The walk accepts exactly the streams whose frames the engine accepts, that end without
      a bad line or a refusal, that were read completely, and whose end validates. */
  lemma {:induction false} WalkAccepts(env: Env, s: State, lines: seq<Line>, readFails: bool)
    ensures WalkFrom(env, s, lines, readFails).verdict.Success? <==>
      && FeedAll(s, FramesOf(lines)).Ok? && StopOf(lines).None? && !readFails
      && End(env, FeedAll(s, FramesOf(lines)).state).Success?
    ensures WalkFrom(env, s, lines, readFails).verdict.Success? ==>
      && WalkFrom(env, s, lines, readFails).shown == FeedAll(s, FramesOf(lines)).value
      && WalkFrom(env, s, lines, readFails).verdict == Success(End(env, FeedAll(s, FramesOf(lines)).state).value)
    decreases |lines|
  {
    hide Feed, End;
    if lines != [] {
      match lines[0] {
        case Skip => WalkAccepts(env, s, lines[1..], readFails);
        case Body(f) =>
          var rest := FramesOf(lines[1..]);
          assert ([f] + rest)[0] == f && ([f] + rest)[1..] == rest;
          if Feed(s, f).Ok? {
            WalkAccepts(env, Feed(s, f).state, lines[1..], readFails);
          }
        case _ =>
      }
    }
  }

  /** No frame shown before the end carries a tool call, a legacy call or a finish,
      whether or not the stream is accepted. */
  lemma {:induction false} ShownIsPure(env: Env, s: State, acc: Fold, cs: seq<Choice>, lines: seq<Line>,
          readFails: bool)
    requires LiveTracks(acc.choices, cs)
    ensures AllPure(WalkFrom(env, s, lines, readFails).shown)
    decreases |lines|
  {
    hide Feed, LiveTracks, PureFrame, Ended;
    if lines != [] {
      match lines[0] {
        case Skip => ShownIsPure(env, s, acc, cs, lines[1..], readFails);
        case Body(f) =>
          if Feed(s, f).Ok? {
            var after := FrameLive(s, acc, cs, f);
            ShownIsPure(env, Feed(s, f).state, after, cs + ChoicesIn(f), lines[1..], readFails);
          }
        case _ =>
      }
    }
  }

  // ----- exactly when the end accepts

  ghost predicate ToolOk(env: Env, i: nat, t: nat, b: ToolBuffer) {
    && 1 <= |b.name| <= 128
    && (forall c | c in b.name :: 'a' <= c <= 'z' || 'A' <= c <= 'Z' || '0' <= c <= '9' || c in "_-.:")
    && env.isObject(b.args)
    && (b.kind == "" || b.kind == "function")
    && var id := CallId(env, i, t, b);
       |id| <= 256 && env.trim(id) == id && forall c | c in id :: c !in "\r\n\t "
  }

  ghost predicate SameId(env: Env, i: nat, tools: map<nat, ToolBuffer>, t: nat, u: nat)
    requires t in tools && u in tools
  {
    CallId(env, i, t, tools[t]) == CallId(env, i, u, tools[u])
  }

  ghost function IdsOf(env: Env, i: nat, c: ChoiceState): set<string> {
    if c.finish in ["length", "content_filter"] then {} else set t | t in c.tools :: CallId(env, i, t, c.tools[t])
  }

  ghost predicate ChoiceOk(env: Env, i: nat, c: ChoiceState) {
    && c.finish != ""
    && (c.finish !in ["length", "content_filter"] ==>
          && (c.finish in ["tool_calls", "function_call"] ==> c.tools != map[])
          && (forall t | t in c.tools :: ToolOk(env, i, t, c.tools[t]))
          && (forall t, u | t in c.tools && u in c.tools && t != u :: !SameId(env, i, c.tools, t, u)))
  }

  ghost predicate ToolsOk(env: Env, i: nat, tools: map<nat, ToolBuffer>, order: seq<nat>, ids: set<string>)
    requires forall t | t in order :: t in tools
  {
    && (forall t | t in order :: ToolOk(env, i, t, tools[t]) && CallId(env, i, t, tools[t]) !in ids)
    && (forall t, u | t in order && u in order && t != u :: !SameId(env, i, tools, t, u))
  }

  lemma ToolsOkStep(env: Env, i: nat, tools: map<nat, ToolBuffer>, t: nat, rest: seq<nat>, ids: set<string>)
    requires t in tools && t !in rest && forall u | u in rest :: u in tools
    ensures ToolsOk(env, i, tools, [t] + rest, ids) <==>
      && ToolOk(env, i, t, tools[t]) && CallId(env, i, t, tools[t]) !in ids
      && ToolsOk(env, i, tools, rest, ids + {CallId(env, i, t, tools[t])})
  {
    hide CallId, ToolOk;
    var id := CallId(env, i, t, tools[t]);
    if ToolsOk(env, i, tools, rest, ids + {id}) && ToolOk(env, i, t, tools[t]) && id !in ids {
      forall u | u in rest
        ensures !SameId(env, i, tools, t, u) && !SameId(env, i, tools, u, t) && CallId(env, i, u, tools[u]) !in ids
      {
      }
    }
    if ToolsOk(env, i, tools, [t] + rest, ids) {
      assert t in [t] + rest;
      forall u | u in rest
        ensures CallId(env, i, u, tools[u]) !in ids + {id} && ToolOk(env, i, u, tools[u])
      {
        assert u in [t] + rest && !SameId(env, i, tools, t, u);
      }
    }
  }

  lemma {:induction false} EndToolsAccepts(env: Env, i: nat, tools: map<nat, ToolBuffer>, order: seq<nat>,
          ids: set<string>)
    requires StrictlyAscending(order) && forall t | t in order :: t in tools
    ensures EndTools(env, i, tools, order, ids).Success? <==> ToolsOk(env, i, tools, order, ids)
    ensures EndTools(env, i, tools, order, ids).Success? ==>
      EndTools(env, i, tools, order, ids).value.1 == ids + set t | t in order :: CallId(env, i, t, tools[t])
    decreases |order|
  {
    if order != [] {
      var t := order[0];
      var id := CallId(env, i, t, tools[t]);
      assert order == [t] + order[1..] && t !in order[1..];
      assert EndTool(env, i, t, tools[t], ids).Success? <==> ToolOk(env, i, t, tools[t]) && id !in ids;
      hide ToolOk, CallId, EndTool, ToolsOk;
      EndToolsAccepts(env, i, tools, order[1..], ids + {id});
      ToolsOkStep(env, i, tools, t, order[1..], ids);
    }
  }

  lemma EndChoiceAccepts(env: Env, i: nat, c: ChoiceState, ids: set<string>)
    ensures EndChoice(env, i, c, ids).Success? <==> ChoiceOk(env, i, c) && IdsOf(env, i, c) !! ids
    ensures EndChoice(env, i, c, ids).Success? ==> EndChoice(env, i, c, ids).value.1 == ids + IdsOf(env, i, c)
  {
    hide ToolOk, CallId, EndTools, ToolsOk;
    if c.finish != "" && !Truncated(c.finish) {
      var order := Ascending(c.tools.Keys);
      EndToolsAccepts(env, i, c.tools, order, ids);
      ToolsOkAll(env, i, c, order, ids);
      assert (set t | t in order :: CallId(env, i, t, c.tools[t])) == IdsOf(env, i, c);
    }
  }

  /** Checking the tools in order is checking them all. */
  lemma ToolsOkAll(env: Env, i: nat, c: ChoiceState, order: seq<nat>, ids: set<string>)
    requires c.finish != "" && !Truncated(c.finish) && forall t :: t in order <==> t in c.tools
    ensures ToolsOk(env, i, c.tools, order, ids) && (NeedsTool(c.finish) ==> c.tools != map[])
      <==> ChoiceOk(env, i, c) && IdsOf(env, i, c) !! ids
  {
    hide ToolOk, CallId;
    forall t | t in c.tools
      ensures CallId(env, i, t, c.tools[t]) in IdsOf(env, i, c)
    {
    }
  }

  lemma {:induction false} EndChoicesAccepts(env: Env, choices: map<nat, ChoiceState>, order: seq<nat>,
          ids: set<string>)
    requires StrictlyAscending(order) && forall i | i in order :: i in choices
    ensures EndChoices(env, choices, order, ids).Success? <==>
      && (forall i | i in order :: ChoiceOk(env, i, choices[i]) && IdsOf(env, i, choices[i]) !! ids)
      && (forall i, j | i in order && j in order && i != j :: IdsOf(env, i, choices[i]) !! IdsOf(env, j, choices[j]))
    decreases |order|
  {
    hide EndChoice, ChoiceOk, IdsOf;
    if order != [] {
      var i := order[0];
      assert order == [i] + order[1..] && i !in order[1..];
      EndChoiceAccepts(env, i, choices[i], ids);
      if EndChoice(env, i, choices[i], ids).Success? {
        EndChoicesAccepts(env, choices, order[1..], EndChoice(env, i, choices[i], ids).value.1);
      }
    }
  }

  /** The end accepts exactly when there is a choice, every choice is finished with valid
      tools, and the tool ids of the untruncated choices are pairwise distinct. */
  lemma EndAccepts(env: Env, s: State)
    ensures End(env, s).Success? <==>
      && s.choices != map[]
      && (forall i | i in s.choices :: ChoiceOk(env, i, s.choices[i]))
      && (forall i, j | i in s.choices && j in s.choices && i != j ::
            IdsOf(env, i, s.choices[i]) !! IdsOf(env, j, s.choices[j]))
  {
    hide ChoiceOk, IdsOf;
    EndChoicesAccepts(env, s.choices, Ascending(s.choices.Keys), {});
  }

  // ----- generated ids never collide

  function DigitValue(c: char): int {
    c as int - '0' as int
  }

  function Value(s: string): int {
    if s == "" then 0 else 10 * Value(s[..|s| - 1]) + DigitValue(s[|s| - 1])
  }

  lemma {:induction false} DigitsValue(n: nat)
    ensures Value(Digits(n)) == n
  {
    var d := "0123456789"[n % 10];
    assert DigitValue(d) == n % 10;
    if n < 10 {
      assert Digits(n) == [d] && [d][..0] == "";
    } else {
      DigitsValue(n / 10);
      assert Digits(n)[..|Digits(n)| - 1] == Digits(n / 10);
    }
  }

  lemma SplitAtUnderscore(a: string, b: string, c: string, d: string)
    requires a + "_" + b == c + "_" + d && '_' !in a && '_' !in c
    ensures a == c && b == d
  {
    var s := a + "_" + b;
    assert s[|a|] == '_' && s[|c|] == '_';
    assert |a| == |c|;
    assert a == s[..|a|] && c == s[..|c|] && b == s[|a| + 1..] && d == s[|c| + 1..];
  }

  /** Calls without an upstream id get pairwise different ids, so they never fail each other. */
  lemma FallbackIdsDistinct(env: Env, i: nat, t: nat, j: nat, u: nat)
    requires FallbackId(env, i, t) == FallbackId(env, j, u)
    ensures i == j && t == u
  {
    var prefix := "call_qoder_" + env.nonce + "_";
    var x, y := Digits(i) + "_" + Digits(t), Digits(j) + "_" + Digits(u);
    assert FallbackId(env, i, t) == prefix + x && FallbackId(env, j, u) == prefix + y;
    assert x == (prefix + x)[|prefix|..] && y == (prefix + y)[|prefix|..];
    SplitAtUnderscore(Digits(i), Digits(t), Digits(j), Digits(u));
    DigitsValue(i);
    DigitsValue(j);
    DigitsValue(t);
    DigitsValue(u);
  }

  /** A terminal for choice i with a declared finish. */
  ghost predicate Concludes(f: Frame, i: nat) {
    exists calls, finish :: finish != "" && f == Terminal(i, finish, calls)
  }

  ghost predicate OneTerminalEach(order: seq<nat>, terminals: seq<Frame>) {
    |terminals| == |order| && forall k | 0 <= k < |order| :: Concludes(terminals[k], order[k])
  }

  lemma {:induction false} TerminalsInOrder(env: Env, choices: map<nat, ChoiceState>, order: seq<nat>, ids: set<string>)
    requires forall i | i in order :: i in choices
    requires EndChoices(env, choices, order, ids).Success?
    ensures OneTerminalEach(order, EndChoices(env, choices, order, ids).value)
    decreases |order|
  {
    hide Concludes, Terminal, EndChoice;
    if order != [] {
      var i := order[0];
      var ended := EndChoice(env, i, choices[i], ids).value;
      TerminalsInOrder(env, choices, order[1..], ended.1);
      TerminalConcludes(env, i, choices[i], ids, ended.0);
    }
  }

  lemma TerminalConcludes(env: Env, i: nat, c: ChoiceState, ids: set<string>, calls: seq<Call>)
    requires EndChoice(env, i, c, ids).Success?
    ensures Concludes(Terminal(i, c.finish, calls), i)
  {
  }

  // ----- the ids of the emitted calls

  function IdsOfCalls(calls: seq<Call>): seq<string> {
    if calls == [] then [] else [if calls[0].Call? then Str(calls[0].id) else ""] + IdsOfCalls(calls[1..])
  }

  function IdsOfChoices(cs: seq<Choice>): seq<string> {
    if cs == [] then []
    else (if cs[0].Choice? then IdsOfCalls(CallsIn(DeltaOf(cs[0].delta))) else []) + IdsOfChoices(cs[1..])
  }

  /** The ids of all calls in these frames, in order. */
  function IdsOfFrames(fs: seq<Frame>): seq<string> {
    if fs == [] then [] else IdsOfChoices(ChoicesIn(fs[0])) + IdsOfFrames(fs[1..])
  }

  /** Every id is there, new, and different from the others. */
  ghost predicate FreshIds(ids: seq<string>, used: set<string>) {
    && (forall k | 0 <= k < |ids| :: ids[k] != "" && ids[k] !in used)
    && (forall j, k | 0 <= j < k < |ids| :: ids[j] != ids[k])
  }

  lemma FreshAppend(a: seq<string>, b: seq<string>, used: set<string>, more: set<string>)
    requires FreshIds(a, used) && FreshIds(b, more) && used <= more && forall id | id in a :: id in more
    ensures FreshIds(a + b, used)
  {
    forall j, k | 0 <= j < k < |a + b| ensures (a + b)[j] != (a + b)[k] {
      if j < |a| <= k { assert a[j] in a && b[k - |a|] !in more; }
    }
  }

  lemma CallIdExists(env: Env, i: nat, t: nat, b: ToolBuffer)
    ensures CallId(env, i, t, b) != ""
  {
    assert FallbackId(env, i, t)[0] == 'c';
  }

  lemma {:induction false} EndToolsIds(env: Env, i: nat, tools: map<nat, ToolBuffer>, order: seq<nat>, ids: set<string>)
    requires forall t | t in order :: t in tools
    requires EndTools(env, i, tools, order, ids).Success?
    ensures var (calls, after) := EndTools(env, i, tools, order, ids).value;
      FreshIds(IdsOfCalls(calls), ids) && ids <= after && forall id | id in IdsOfCalls(calls) :: id in after
    decreases |order|
  {
    if order != [] {
      var t := order[0];
      var id := CallId(env, i, t, tools[t]);
      EndToolsIds(env, i, tools, order[1..], ids + {id});
      CallIdExists(env, i, t, tools[t]);
      var call, rest := TerminalCall(env, i, t, tools[t]), EndTools(env, i, tools, order[1..], ids + {id}).value.0;
      assert ([call] + rest)[0] == call && ([call] + rest)[1..] == rest;
      FreshAppend([id], IdsOfCalls(rest), ids, ids + {id});
      hide CallId, FreshIds, ValidId, ValidName;
    }
  }

  lemma TerminalIds(i: nat, finish: string, calls: seq<Call>)
    ensures IdsOfChoices(ChoicesIn(Terminal(i, finish, calls))) == IdsOfCalls(calls)
  {
    var cs := ChoicesIn(Terminal(i, finish, calls));
    assert |cs| == 1 && cs[1..] == [] && CallsIn(DeltaOf(cs[0].delta)) == calls;
    assert IdsOfCalls(calls) + [] == IdsOfCalls(calls);
    hide IdsOfCalls;
  }

  lemma {:induction false} EndChoicesIds(env: Env, choices: map<nat, ChoiceState>, order: seq<nat>, ids: set<string>)
    requires forall i | i in order :: i in choices
    requires EndChoices(env, choices, order, ids).Success?
    ensures FreshIds(IdsOfFrames(EndChoices(env, choices, order, ids).value), ids)
    decreases |order|
  {
    if order != [] {
      var i := order[0];
      var c := choices[i];
      var ended := EndChoice(env, i, c, ids).value;
      if !Truncated(c.finish) { EndToolsIds(env, i, c.tools, Ascending(c.tools.Keys), ids); }
      EndChoicesIds(env, choices, order[1..], ended.1);
      hide EndTools, Terminal, FreshIds, IdsOfChoices, Truncated;
      TerminalIds(i, c.finish, ended.0);
      var first, rest := Terminal(i, c.finish, ended.0), EndChoices(env, choices, order[1..], ended.1).value;
      assert ([first] + rest)[0] == first && ([first] + rest)[1..] == rest;
      FreshAppend(IdsOfCalls(ended.0), IdsOfFrames(rest), ids, ended.1);
    }
  }

  lemma TerminalsEach(env: Env, lines: seq<Line>, readFails: bool)
    ensures WalkFrom(env, INITIAL, lines, readFails).verdict.Success? ==>
      var terminals := WalkFrom(env, INITIAL, lines, readFails).verdict.value;
      && terminals != [] && OneTerminalEach(Ascending(Indices(ChoicesOf(FramesOf(lines)))), terminals)
      && FreshIds(IdsOfFrames(terminals), {})
  {
    hide FramesOf, FeedAll, WalkFrom, Tracks, Indices, OneTerminalEach, EndChoices, FreshIds, IdsOfFrames;
    if WalkFrom(env, INITIAL, lines, readFails).verdict.Success? {
      var fs := FramesOf(lines);
      WalkAccepts(env, INITIAL, lines, readFails);
      var s := FeedAll(INITIAL, fs).state;
      EngineIndices(fs);
      TerminalsInOrder(env, s.choices, Ascending(s.choices.Keys), {});
      EndChoicesIds(env, s.choices, Ascending(s.choices.Keys), {});
      assert |Ascending(s.choices.Keys)| == |s.choices.Keys|;
      AsManyTerminals(Ascending(s.choices.Keys), WalkFrom(env, INITIAL, lines, readFails).verdict.value);
    }
  }

  lemma AsManyTerminals(order: seq<nat>, terminals: seq<Frame>)
    requires OneTerminalEach(order, terminals)
    ensures |terminals| == |order|
  {
  }

  /** Main theorem: whatever the lines, the read outcome and the host's room, no terminal
      leaves the walk unless the whole stream validated. Everything emitted before the end
      carries no call and no finish; on success there is exactly one terminal per choice index
      the stream addressed, in ascending order, each with a declared finish, and the ids of all
      calls in them are non-empty and pairwise distinct. */
  lemma TransactionalEnd(env: Env, lines: seq<Line>, readFails: bool, room: Option<nat>,
                         emitted: seq<Frame>, error: Option<WalkError>)
    requires Emitted(WalkFrom(env, INITIAL, lines, readFails), room, emitted, error)
    ensures WalkFrom(env, INITIAL, lines, readFails).verdict.Failure? ==> AllPure(emitted) && error.Some?
    ensures WalkFrom(env, INITIAL, lines, readFails).verdict.Success? ==>
      var w := WalkFrom(env, INITIAL, lines, readFails);
      && AllPure(w.shown) && emitted <= w.shown + w.verdict.value
      && (error.None? <==> emitted == w.shown + w.verdict.value)
      && OneTerminalEach(Ascending(Indices(ChoicesOf(FramesOf(lines)))), w.verdict.value)
      && w.verdict.value != [] && FreshIds(IdsOfFrames(w.verdict.value), {})
  {
    assert LiveTracks(map[], []);
    ShownIsPure(env, INITIAL, EMPTY_FOLD, [], lines, readFails);
    hide PureFrame, WalkFrom, FramesOf, ChoicesOf, Indices, Ascending, OneTerminalEach, FreshIds, IdsOfFrames;
    var w := WalkFrom(env, INITIAL, lines, readFails);
    if w.verdict.Success? {
      TerminalsEach(env, lines, readFails);
    } else {
      assert Emissions(w) == w.shown;
    }
  }

  lemma EngineIndices(fs: seq<Frame>)
    requires FeedAll(INITIAL, fs).Ok?
    ensures FeedAll(INITIAL, fs).state.choices.Keys == Indices(ChoicesOf(fs))
    ensures Tracks(FeedAll(INITIAL, fs).state.choices, ChoicesOf(fs))
  {
    var cs := ChoicesOf(fs);
    assert Tracks(map[], []) && [] + cs == cs;
    EngineHoldsMeaning(INITIAL, [], fs);
    hide FeedAll, ChoicesOf, Indices, For, StateOf;
    IndicesAddressed(cs);
    forall i: nat | For(cs, i) != []
      ensures i in Indices(cs)
    {
      ForBounded(cs, i);
    }
  }

  // ----- the three consumers

  lemma Unfold(lines: seq<Line>, n: nat)
    requires n < |lines|
    ensures lines[n..][0] == lines[n] && lines[n..][1..] == lines[n + 1..]
  {
  }

  ghost function After(emitted: seq<Frame>, w: Outcome): Outcome {
    w.(shown := emitted + w.shown)
  }

  lemma AfterStep(emitted: seq<Frame>, next: seq<Frame>, w: Outcome)
    ensures After([], w) == w
    ensures After(emitted, w.(shown := next + w.shown)) == After(emitted + next, w)
  {
    assert [] + w.shown == w.shown && emitted + (next + w.shown) == emitted + next + w.shown;
  }

  /** Live streaming: emits until the host refuses a frame or the walk ends. */
  method Walk(env: Env, lines: seq<Line>, readFails: bool, room: Option<nat>)
    returns (emitted: seq<Frame>, error: Option<WalkError>)
    ensures Emitted(WalkFrom(env, INITIAL, lines, readFails), room, emitted, error)
  {
    hide Feed, End;
    var engine := new Engine();
    emitted := [];
    var n := 0;
    ghost var w := WalkFrom(env, INITIAL, lines, readFails);
    assert lines[0..] == lines;
    AfterStep([], [], w);
    while n < |lines| && lines[n] != Done
      invariant 0 <= n <= |lines| && Fits(room, |emitted|)
      invariant w == After(emitted, WalkFrom(env, engine.Now(), lines[n..], readFails))
    {
      Unfold(lines, n);
      match lines[n] {
        case Skip =>
        case BadLine(reason) => return emitted, Some(Broken(reason));
        case Refused(status) => return emitted, Some(Refusal(status));
        case Body(f) =>
          var bad, out := engine.FeedFrame(f);
          if bad.Some? { return emitted, Some(Broken(bad.value)); }
          var next := if out.Some? then [out.value] else [];
          AfterStep(emitted, next, WalkFrom(env, engine.Now(), lines[n + 1..], readFails));
          if !Fits(room, |emitted + next|) { return emitted, Some(Broken(HostEmitFailed)); }
          emitted := emitted + next;
      }
      n := n + 1;
    }
    if readFails { return emitted, Some(Broken(ReadFailure)); }
    var terminals := engine.Finish(env);
    if terminals.Failure? { return emitted, Some(Broken(terminals.error)); }
    for k := 0 to |terminals.value|
      invariant emitted == w.shown + terminals.value[..k] && Fits(room, |emitted|)
    {
      if !Fits(room, |emitted| + 1) { return emitted, Some(Broken(HostEmitFailed)); }
      emitted := emitted + [terminals.value[k]];
    }
    error := None;
  }

  /** Synchronous collection: all frames, or an error and no frame. */
  method Collect(env: Env, lines: seq<Line>, readFails: bool) returns (r: Result<seq<Frame>, WalkError>)
    ensures var w := WalkFrom(env, INITIAL, lines, readFails);
      r == if w.verdict.Success? then Success(w.shown + w.verdict.value) else Failure(w.verdict.error)
  {
    var chunks, error := Walk(env, lines, readFails, None);
    r := if error.Some? then Failure(error.value) else Success(chunks);
  }

  /** The non-streaming fold: accepts the same streams and returns what their frames mean. */
  method AggregateStream(env: Env, lines: seq<Line>, readFails: bool)
    returns (r: Result<(seq<(nat, Folded)>, Field<int>), WalkError>)
    ensures var w := WalkFrom(env, INITIAL, lines, readFails);
      r == if w.verdict.Success? then Success(Completion(env, FramesOf(lines))) else Failure(w.verdict.error)
  {
    hide WalkFrom, FeedAll, End, Completion, Aggregate, AllFoldable;
    var chunks, error := Walk(env, lines, readFails, None);
    if error.Some? { return Failure(error.value); }
    WalkAccepts(env, INITIAL, lines, readFails);
    FoldRefinement(env, FramesOf(lines));
    var folded := FoldChunks(chunks);
    r := Success(folded);
  }

  method FoldChunks(chunks: seq<Frame>) returns (r: (seq<(nat, Folded)>, Field<int>))
    requires AllFoldable(chunks)
    ensures r == Aggregate(chunks)
  {
    hide FoldChoices, Rendered, Ascending;
    var choices, usage := map[], Absent;
    assert chunks[0..] == chunks;
    for k := 0 to |chunks|
      invariant FoldFrames(Fold(choices, usage), chunks[k..]) == FoldFrames(EMPTY_FOLD, chunks)
    {
      var f := chunks[k];
      assert Foldable(f) && chunks[k..][0] == f && chunks[k..][1..] == chunks[k + 1..];
      if !f.usage.Absent? { usage := f.usage; }
      choices := FoldInto(choices, ChoicesIn(f));
    }
    r := (Rendered(choices, Ascending(choices.Keys)), usage);
  }

  method FoldInto(start: map<nat, Folded>, cs: seq<Choice>) returns (choices: map<nat, Folded>)
    requires AllChoices(cs)
    ensures choices == FoldChoices(start, cs)
  {
    choices := start;
    assert cs[0..] == cs;
    for k := 0 to |cs|
      invariant FoldChoices(choices, cs[k..]) == FoldChoices(start, cs)
    {
      var c := cs[k];
      assert cs[k..][0] == c && cs[k..][1..] == cs[k + 1..];
      var f := AtIndex(choices, FoldIndex(c));
      choices := choices[FoldIndex(c) := FoldDelta(f, DeltaOf(c.delta), c.finish)];
    }
  }
}
