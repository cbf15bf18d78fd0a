/** Exactly which frames the engine accepts, said without the engine: the conditions speak of the
    choice at hand and of everything fed before it, in arrival order. */
module StreamAccept {
  import opened Collections
  import opened Frames
  import opened StreamIntegrity
  import opened StreamMeaning
  import opened StreamBounds
  import opened StreamFold
  import opened StreamWalk

  // ----- tool-call fragments

  /** The bytes a fragment is charged for. */
  function Charge(call: Call): nat {
    (if call.Call? then |Str(call.id)| + |Str(call.kind)| else 0) + |NamePart(call)| + |ArgsPart(call)|
  }

  function ChargeOf(calls: seq<Call>): nat {
    if calls == [] then 0 else Charge(calls[0]) + ChargeOf(calls[1..])
  }

  /** A fragment is an object with a valid index whose fields have the right types. */
  predicate FragmentOk(call: Call) {
    && call.Call? && IndexOf(call.index).Some?
    && !call.id.Wrong? && !call.kind.Wrong? && !call.fn.Wrong?
    && (call.fn.Is? ==> !call.fn.value.name.Wrong? && !call.fn.value.arguments.Wrong?)
  }

  /** Its id and type, when given, are the first ones given for that call. */
  predicate LabelsHold(call: Call, all: seq<Call>)
    requires FragmentOk(call)
  {
    var mine := CallsAt(all, IndexOf(call.index).value);
    && (Str(call.id) == "" || Str(call.id) == FirstId(mine))
    && (Str(call.kind) == "" || Str(call.kind) == FirstKind(mine))
  }

  ghost predicate FragmentsOk(before: seq<Call>, calls: seq<Call>) {
    forall call | call in calls :: FragmentOk(call) && LabelsHold(call, before + calls)
  }

  lemma {:induction false} CallsAtAppend(a: seq<Call>, b: seq<Call>, t: nat)
    ensures CallsAt(a + b, t) == CallsAt(a, t) + CallsAt(b, t)
  {
    if b == [] {
      assert a + b == a;
    } else {
      assert (a + b)[..|a + b| - 1] == a + b[..|b| - 1];
      CallsAtAppend(a, b[..|b| - 1], t);
    }
  }

  lemma {:induction false} FirstStays(a: seq<Call>, b: seq<Call>)
    ensures FirstId(a) != "" ==> FirstId(a + b) == FirstId(a)
    ensures FirstKind(a) != "" ==> FirstKind(a + b) == FirstKind(a)
  {
    if b == [] {
      assert a + b == a;
    } else {
      assert (a + b)[..|a + b| - 1] == a + b[..|b| - 1];
      FirstStays(a, b[..|b| - 1]);
    }
  }

  /** Against all fragments of the call or against those before: the same condition. */
  lemma LabelsFromBuffer(before: seq<Call>, call: Call, rest: seq<Call>)
    requires FragmentOk(call)
    ensures var b := BufferOf(CallsAt(before, IndexOf(call.index).value));
      LabelsHold(call, before + [call] + rest) <==>
        && (Str(call.id) == "" || b.id == "" || b.id == Str(call.id))
        && (Str(call.kind) == "" || b.kind == "" || b.kind == Str(call.kind))
  {
    var t := IndexOf(call.index).value;
    var mine := CallsAt(before, t);
    CallsAtAppend(before + [call], rest, t);
    CallsAtStep(before, call, t);
    assert CallsAt(before + [call] + rest, t) == mine + [call] + CallsAt(rest, t);
    assert (mine + [call])[..|mine|] == mine;
    FirstStays(mine + [call], CallsAt(rest, t));
    hide CallsAt, IndexOf;
  }

  lemma LabelAccepts(s: State, prev: string, f: Field<string>)
    ensures CheckLabel(s, prev, f).Ok? <==> !f.Wrong? && (Str(f) == "" || prev == "" || prev == Str(f))
    ensures CheckLabel(s, prev, f).Ok? ==> CheckLabel(s, prev, f).state == s.(toolBytes := s.toolBytes + |Str(f)|)
  {
  }

  lemma FunctionAccepts(s: State, call: Call)
    requires call.Call?
    ensures CheckFunction(s, call.fn).Ok? <==>
      !call.fn.Wrong? && (call.fn.Is? ==> !call.fn.value.name.Wrong? && !call.fn.value.arguments.Wrong?)
    ensures CheckFunction(s, call.fn).Ok? ==>
      CheckFunction(s, call.fn).state == s.(toolBytes := s.toolBytes + |NamePart(call)| + |ArgsPart(call)|)
  {
  }

  lemma CheckAccepts(s: State, prev: ToolBuffer, call: Call)
    requires call.Call? && IndexOf(call.index).Some?
    ensures CheckCall(s, prev, call).Ok? <==>
      FragmentOk(call) && FitsBuffer(prev, call) && s.toolBytes + Charge(call) <= MAX_TOOL_BYTES
    ensures CheckCall(s, prev, call).Ok? ==> CheckCall(s, prev, call).state.toolBytes == s.toolBytes + Charge(call)
  {
    LabelAccepts(s, prev.id, call.id);
    var s1 := s.(toolBytes := s.toolBytes + |Str(call.id)|);
    LabelAccepts(s1, prev.kind, call.kind);
    FunctionAccepts(s1.(toolBytes := s1.toolBytes + |Str(call.kind)|), call);
    hide CheckLabel, CheckFunction, Str, NamePart, ArgsPart, IndexOf;
  }

  /** When one fragment is accepted, and what it is charged. */
  lemma FragmentAccepts(s: State, i: nat, call: Call)
    requires i in s.choices
    ensures FeedCall(s, i, call).Ok? <==>
      && FragmentOk(call)
      && (IndexOf(call.index).value in s.choices[i].tools || s.tools < MAX_TOOLS)
      && FitsBuffer(BufferAt(s, i, IndexOf(call.index).value), call)
      && s.toolBytes + Charge(call) <= MAX_TOOL_BYTES
    ensures FeedCall(s, i, call).Ok? ==>
      && FeedCall(s, i, call).state.toolBytes == s.toolBytes + Charge(call)
      && FeedCall(s, i, call).state.tools == s.tools + if IndexOf(call.index).value in s.choices[i].tools then 0 else 1
  {
    hide IndexOf, Merge, CheckCall, FitsBuffer, Charge;
    if call.Call? && IndexOf(call.index).Some? {
      var t := IndexOf(call.index).value;
      var ready := OpenTool(s, i, t);
      assert ready.choices[i].tools[t] == BufferAt(s, i, t);
      CheckAccepts(ready, BufferAt(s, i, t), call);
    }
  }

  function BufferAt(s: State, i: nat, t: nat): ToolBuffer
    requires i in s.choices
  {
    if t in s.choices[i].tools then s.choices[i].tools[t] else NEW_TOOL
  }

  predicate FitsBuffer(b: ToolBuffer, call: Call)
    requires call.Call?
  {
    && (Str(call.id) == "" || b.id == "" || b.id == Str(call.id))
    && (Str(call.kind) == "" || b.kind == "" || b.kind == Str(call.kind))
  }

  lemma {:induction false} IndicesGrow(a: seq<Call>, b: seq<Call>)
    ensures CallIndices(a) <= CallIndices(a + b)
  {
    if b == [] {
      assert a + b == a;
    } else {
      assert (a + b)[..|a + b| - 1] == a + b[..|b| - 1];
      IndicesGrow(a, b[..|b| - 1]);
    }
  }

  /** The calls opened by a list of fragments. */
  function Opened(before: seq<Call>, calls: seq<Call>): nat {
    |CallIndices(before + calls) - CallIndices(before)|
  }

  /** A list of fragments is accepted exactly when each is well-formed, ids and types never
      change, and the opened calls and the charged bytes stay within the limits. */
  lemma {:induction false} FragmentsAccept(s: State, i: nat, before: seq<Call>, calls: seq<Call>)
    requires i in s.choices && s.choices[i].tools == BuffersOf(before)
    requires s.tools <= MAX_TOOLS && s.toolBytes <= MAX_TOOL_BYTES
    ensures FeedCalls(s, i, calls).Ok? <==>
      && FragmentsOk(before, calls)
      && s.tools + Opened(before, calls) <= MAX_TOOLS
      && s.toolBytes + ChargeOf(calls) <= MAX_TOOL_BYTES
    ensures FeedCalls(s, i, calls).Ok? ==>
      && FeedCalls(s, i, calls).state.toolBytes == s.toolBytes + ChargeOf(calls)
      && FeedCalls(s, i, calls).state.tools == s.tools + Opened(before, calls)
    decreases |calls|
  {
    hide FeedCall, BuffersOf, CallIndices, LabelsHold, FragmentOk, Charge, FitsBuffer, BufferAt;
    if calls == [] {
      assert before + calls == before;
      assert CallIndices(before) - CallIndices(before) == {};
    } else {
      var call, rest := calls[0], calls[1..];
      FirstFragment(s, i, before, call, rest);
      FragmentAccepts(s, i, call);
      assert calls == [call] + rest && before + calls == before + [call] + rest;
      if FeedCall(s, i, call).Ok? {
        FeedCallStep(s, i, before, call);
        FragmentsAccept(FeedCall(s, i, call).state, i, before + [call], rest);
      }
    }
  }

  /** The first fragment's part of the conditions on the whole list. */
  lemma FirstFragment(s: State, i: nat, before: seq<Call>, call: Call, rest: seq<Call>)
    requires i in s.choices && s.choices[i].tools == BuffersOf(before) && s.tools <= MAX_TOOLS
    ensures FragmentOk(call) ==>
      var t := IndexOf(call.index).value;
      && (LabelsHold(call, before + [call] + rest) <==> FitsBuffer(BufferAt(s, i, t), call))
      && Opened(before, [call] + rest) == Opened(before + [call], rest) + (if t in s.choices[i].tools then 0 else 1)
  {
    if FragmentOk(call) {
      var t := IndexOf(call.index).value;
      LabelsFromBuffer(before, call, rest);
      if t !in CallIndices(before) { NoCallsAt(before, t); }
      OpenedStep(before, call, rest);
      hide IndexOf, CallIndices, CallsAt, LabelsHold, Opened, FragmentOk;
    }
  }

  lemma OpenedStep(before: seq<Call>, call: Call, rest: seq<Call>)
    requires FragmentOk(call)
    ensures Opened(before, [call] + rest)
      == Opened(before + [call], rest) + (if IndexOf(call.index).value in CallIndices(before) then 0 else 1)
  {
    hide CallIndices, CallsAt;
    var t := IndexOf(call.index).value;
    CallsAtStep(before, call, t);
    IndicesGrow(before + [call], rest);
    assert before + ([call] + rest) == before + [call] + rest;
    SplitSize(CallIndices(before + [call] + rest), CallIndices(before), t);
  }

  lemma SplitSize(all: set<nat>, was: set<nat>, t: nat)
    requires t in all
    ensures |all - was| == |all - (was + {t})| + if t in was then 0 else 1
  {
    if t in was {
      assert was + {t} == was;
    } else {
      assert all - was == (all - (was + {t})) + {t};
    }
  }

  // ----- choices

  function Charged(cs: seq<Choice>): nat {
    if cs == [] then 0 else Charged(cs[..|cs| - 1]) + ChargeOf(CallsIn(LastDelta(cs)))
  }

  /** What has been collected for every addressed index. */
  function Meant(cs: seq<Choice>): map<nat, ChoiceState> {
    map i | i in Indices(cs) :: StateOf(For(cs, i))
  }

  /** A legacy call excludes tool calls unless it is an empty shell. */
  predicate ProtocolOk(d: Delta) {
    if NoLegacyCall(d.legacy) then !d.calls.Wrong? else d.calls.Absent? && d.legacy.Is?
  }

  /** No finish yet, or one of the five finish reasons. */
  predicate FinishOk(f: Field<string>) {
    || f.Absent? || f.Null?
    || (f.Is? && f.value in ["", "stop", "tool_calls", "function_call", "length", "content_filter"])
  }

  predicate DeltaOk(f: Field<Delta>) {
    !f.Wrong? && !DeltaOf(f).content.Wrong? && !DeltaOf(f).reasoning.Wrong? && ProtocolOk(DeltaOf(f))
  }

  /** A choice is admissible after cs: well typed, addressed once per frame, its index not
      finished before, its fragments well-formed with unchanging ids and types, and choices,
      calls and bytes within the limits over the whole stream so far. */
  ghost predicate Admissible(cs: seq<Choice>, seen: set<nat>, c: Choice) {
    && c.Choice? && IndexOf(c.index).Some? && IndexOf(c.index).value !in seen
    && DeltaOk(c.delta) && FinishOk(c.finish)
    && FinishOf(For(cs, IndexOf(c.index).value)) == ""
    && FragmentsOk(CallsOf(For(cs, IndexOf(c.index).value)), CallsIn(DeltaOf(c.delta)))
    && |Indices(cs + [c])| <= 32
    && MapSum(Meant(cs + [c]), ToolCount) <= 128
    && Charged(cs + [c]) <= 1048576
  }

  /** The engine state after the choices cs. */
  ghost predicate Represents(s: State, cs: seq<Choice>) {
    Bounded(s) && Tracks(s.choices, cs) && s.toolBytes == Charged(cs)
  }

  lemma MeantIs(choices: map<nat, ChoiceState>, cs: seq<Choice>)
    requires Tracks(choices, cs)
    ensures choices == Meant(cs) && choices.Keys == Indices(cs)
  {
    hide StateOf, For, Indices;
    IndicesAddressed(cs);
    forall i: nat | For(cs, i) != [] ensures i in Indices(cs) { ForBounded(cs, i); }
  }

  lemma MeantStep(cs: seq<Choice>, c: Choice)
    requires c.Choice? && IndexOf(c.index).Some?
    ensures var i := IndexOf(c.index).value;
      && Indices(cs + [c]) == Indices(cs) + {i}
      && Meant(cs + [c]) == Meant(cs)[i := StateOf(For(cs, i) + [c])]
  {
    hide StateOf, For;
    ForAppend(cs, c);
    assert (cs + [c])[..|cs|] == cs;
  }

  lemma ChargedStep(cs: seq<Choice>, c: Choice)
    requires c.Choice?
    ensures Charged(cs + [c]) == Charged(cs) + ChargeOf(CallsIn(DeltaOf(c.delta)))
    ensures CallsOf(cs + [c]) == CallsOf(cs) + CallsIn(DeltaOf(c.delta))
  {
    assert (cs + [c])[..|cs|] == cs;
  }

  /** The total of opened calls grows by what the choice opens. */
  lemma OpenedTotal(cs: seq<Choice>, c: Choice)
    requires c.Choice? && IndexOf(c.index).Some?
    requires forall i: nat :: i in Indices(cs) <==> For(cs, i) != []
    ensures var i := IndexOf(c.index).value;
      MapSum(Meant(cs + [c]), ToolCount)
      == MapSum(Meant(cs), ToolCount) + Opened(CallsOf(For(cs, i)), CallsIn(DeltaOf(c.delta)))
  {
    var i := IndexOf(c.index).value;
    var mine, new_ := For(cs, i), For(cs, i) + [c];
    MeantStep(cs, c);
    ChargedStep(mine, c);
    MapSumPut(Meant(cs), i, StateOf(new_), ToolCount);
    ToolCountIs(mine);
    ToolCountIs(new_);
    IndicesGrow(CallsOf(mine), CallsIn(DeltaOf(c.delta)));
    SubsetDifference(CallIndices(CallsOf(mine)), CallIndices(CallsOf(new_)));
    assert mine == [] ==> CallIndices(CallsOf(mine)) == {};
    hide MapSum, CallIndices, CallsOf, StateOf, For, Indices, ToolCount;
  }

  lemma ToolCountIs(mine: seq<Choice>)
    ensures ToolCount(StateOf(mine)) == |CallIndices(CallsOf(mine))|
  {
    var buffers := BuffersOf(CallsOf(mine));
    assert buffers.Keys == CallIndices(CallsOf(mine));
    assert |buffers.Keys| == |buffers|;
  }

  lemma SubsetDifference(a: set<nat>, b: set<nat>)
    requires a <= b
    ensures |b - a| == |b| - |a|
  {
    assert b == (b - a) + a;
  }

  lemma ToolsAccept(s: State, i: nat, d: Delta)
    requires i in s.choices
    ensures FeedTools(s, i, d).Ok? <==> ProtocolOk(d) && FeedCalls(s, i, CallsIn(d)).Ok?
    ensures FeedTools(s, i, d).Ok? ==> FeedTools(s, i, d).state == FeedCalls(s, i, CallsIn(d)).state
  {
    hide FeedCalls;
    NoCallsFed(s, i);
    assert NoLegacyCall(d.legacy) <==> EmptyLegacy(d.legacy);
  }

  lemma NoCallsFed(s: State, i: nat)
    requires i in s.choices
    ensures FeedCalls(s, i, []) == Ok(s, ())
  {
  }

  lemma FinishAccepts(f: Field<string>)
    ensures FinishOk(f) <==> !f.Wrong? && (Str(f) == "" || KnownFinish(Str(f)))
  {
  }

  /** The checks of one choice in the engine's order, as one condition. */
  lemma ChoiceChecks(s: State, seen: set<nat>, c: Choice)
    ensures FeedChoice(s, seen, c).Ok? <==>
      && c.Choice? && IndexOf(c.index).Some? && IndexOf(c.index).value !in seen
      && (IndexOf(c.index).value in s.choices || |s.choices| < MAX_CHOICES)
      && OpenChoice(s, IndexOf(c.index).value).choices[IndexOf(c.index).value].finish == ""
      && DeltaOk(c.delta) && FinishOk(c.finish)
      && FeedCalls(Counted(s, c), IndexOf(c.index).value, CallsIn(DeltaOf(c.delta))).Ok?
    ensures FeedChoice(s, seen, c).Ok? ==>
      && FeedChoice(s, seen, c).value == seen + {IndexOf(c.index).value}
      && FeedChoice(s, seen, c).state.toolBytes
         == FeedCalls(Counted(s, c), IndexOf(c.index).value, CallsIn(DeltaOf(c.delta))).state.toolBytes
  {
    if c.Choice? { FinishAccepts(c.finish); }
    hide IndexOf, FeedTools, FeedCalls, KnownFinish, FinishOk, ProtocolOk, CallsIn;
    if c.Choice? && IndexOf(c.index).Some? {
      ToolsAccept(Counted(s, c), IndexOf(c.index).value, DeltaOf(c.delta));
    }
  }

  /** The state in which a choice's fragments are fed. */
  function Counted(s: State, c: Choice): (r: State)
    requires c.Choice? && IndexOf(c.index).Some?
    ensures IndexOf(c.index).value in r.choices
  {
    CountText(OpenChoice(s, IndexOf(c.index).value), DeltaOf(c.delta)).state
  }

  lemma CountedKeeps(s: State, c: Choice)
    requires c.Choice? && IndexOf(c.index).Some?
    ensures var i, r := IndexOf(c.index).value, Counted(s, c);
      && r.choices == OpenChoice(s, i).choices && r.tools == s.tools && r.toolBytes == s.toolBytes
  {
  }

  /** One choice is accepted exactly when it is admissible after what was fed before. */
  lemma ChoiceAccepts(s: State, seen: set<nat>, cs: seq<Choice>, c: Choice)
    requires Represents(s, cs)
    ensures FeedChoice(s, seen, c).Ok? <==> Admissible(cs, seen, c)
    ensures FeedChoice(s, seen, c).Ok? ==> Represents(FeedChoice(s, seen, c).state, cs + [c])
    ensures FeedChoice(s, seen, c).Ok? ==> FeedChoice(s, seen, c).value == seen + {IndexOf(c.index).value}
  {
    ChoiceChecks(s, seen, c);
    if c.Choice? && IndexOf(c.index).Some? {
      RoomAndFinish(s, cs, c);
      FragmentsFit(s, cs, c);
    }
    hide FeedChoice, FeedCalls, IndexOf, Bounded, Tracks, FragmentsOk, MapSum, Meant, Charged, Indices, DeltaOk,
      FinishOk, OpenChoice, Counted;
    if FeedChoice(s, seen, c).Ok? {
      ChoiceBounded(s, seen, c);
      FeedChoiceTracks(s, seen, cs, c);
    }
  }

  lemma RoomAndFinish(s: State, cs: seq<Choice>, c: Choice)
    requires Represents(s, cs) && c.Choice? && IndexOf(c.index).Some?
    ensures var i := IndexOf(c.index).value;
      && ((i in s.choices || |s.choices| < MAX_CHOICES) <==> |Indices(cs + [c])| <= MAX_CHOICES)
      && OpenChoice(s, i).choices[i].finish == FinishOf(For(cs, i))
  {
    MeantIs(s.choices, cs);
    MeantStep(cs, c);
    EmptyState();
    RoomFor(s.choices, IndexOf(c.index).value);
    hide MapSum, IndexOf, Charged, Indices, Meant, For;
  }

  /** The engine's conditions on the fragments, in terms of the history. */
  lemma FragmentsFit(s: State, cs: seq<Choice>, c: Choice)
    requires Represents(s, cs) && c.Choice? && IndexOf(c.index).Some?
    ensures var i := IndexOf(c.index).value;
      var calls := CallsIn(DeltaOf(c.delta));
      && (FeedCalls(Counted(s, c), i, calls).Ok? <==>
            && FragmentsOk(CallsOf(For(cs, i)), calls)
            && MapSum(Meant(cs + [c]), ToolCount) <= MAX_TOOLS && Charged(cs + [c]) <= MAX_TOOL_BYTES)
      && (FeedCalls(Counted(s, c), i, calls).Ok? ==>
            FeedCalls(Counted(s, c), i, calls).state.toolBytes == Charged(cs + [c]))
  {
    var i, r := IndexOf(c.index).value, Counted(s, c);
    MeantIs(s.choices, cs);
    ChargedStep(cs, c);
    CountedKeeps(s, c);
    OpenedState(s, cs, i);
    OpenedTotal(cs, c);
    assert s.tools == MapSum(Meant(cs), ToolCount) <= MAX_TOOLS && s.toolBytes == Charged(cs) <= MAX_TOOL_BYTES;
    hide *;
    FragmentsAccept(r, i, CallsOf(For(cs, i)), CallsIn(DeltaOf(c.delta)));
  }

  lemma OpenedState(s: State, cs: seq<Choice>, i: nat)
    requires Tracks(s.choices, cs)
    ensures OpenChoice(s, i).choices[i].tools == BuffersOf(CallsOf(For(cs, i)))
  {
    EmptyState();
    hide For, CallsOf, BuffersOf;
  }

  lemma RoomFor(choices: map<nat, ChoiceState>, i: nat)
    requires |choices| <= MAX_CHOICES
    ensures (i in choices || |choices| < MAX_CHOICES) <==> |choices.Keys + {i}| <= MAX_CHOICES
  {
    assert |choices.Keys| == |choices|;
    if i in choices { assert choices.Keys + {i} == choices.Keys; }
  }

  // ----- frames and streams

  ghost predicate AllAdmissible(cs: seq<Choice>, seen: set<nat>, ds: seq<Choice>)
    decreases |ds|
  {
    || ds == []
    || (Admissible(cs, seen, ds[0]) && AllAdmissible(cs + [ds[0]], seen + {IndexOf(ds[0].index).value}, ds[1..]))
  }

  /** A frame is a JSON object whose error and code, if any, are null, with choices, or without
      them and without a message, but at least with usage. */
  predicate FrameOk(f: Frame) {
    && f.Frame? && (f.error.Absent? || f.error.Null?) && (f.code.Absent? || f.code.Null?)
    && (f.choices.Is? || (f.choices.Absent? && f.message.Absent? && !f.usage.Absent?))
  }

  ghost predicate FramesAdmissible(cs: seq<Choice>, fs: seq<Frame>)
    decreases |fs|
  {
    || fs == []
    || (&& FrameOk(fs[0]) && AllAdmissible(cs, {}, ChoicesIn(fs[0]))
        && FramesAdmissible(cs + ChoicesIn(fs[0]), fs[1..]))
  }

  lemma {:induction false} ChoicesAccept(s: State, seen: set<nat>, cs: seq<Choice>, ds: seq<Choice>)
    requires Represents(s, cs)
    ensures FeedChoices(s, seen, ds).Ok? <==> AllAdmissible(cs, seen, ds)
    ensures FeedChoices(s, seen, ds).Ok? ==> Represents(FeedChoices(s, seen, ds).state, cs + ds)
    decreases |ds|
  {
    hide FeedChoice, Admissible, Represents;
    if ds == [] {
      assert cs + ds == cs;
    } else {
      ChoiceAccepts(s, seen, cs, ds[0]);
      if FeedChoice(s, seen, ds[0]).Ok? {
        ChoicesAccept(FeedChoice(s, seen, ds[0]).state, FeedChoice(s, seen, ds[0]).value, cs + [ds[0]], ds[1..]);
        assert cs + [ds[0]] + ds[1..] == cs + ds;
      }
    }
  }

  lemma FeedCases(s: State, f: Frame)
    ensures var s0 := s.(frames := s.frames + 1);
      && (!FrameOk(f) ==> Feed(s, f).Fail?)
      && (FrameOk(f) && f.choices.Absent? ==> Feed(s, f) == Ok(s0, Some(f)))
      && (FrameOk(f) && f.choices.Is? ==> Feed(s, f) == ShowFed(f, FeedChoices(s0, {}, f.choices.value)))
  {
    hide FeedChoices, ShowFed;
  }

  lemma FrameAccepts(s: State, cs: seq<Choice>, f: Frame)
    requires Represents(s, cs)
    ensures Feed(s, f).Ok? <==> FrameOk(f) && AllAdmissible(cs, {}, ChoicesIn(f))
    ensures Feed(s, f).Ok? ==> Represents(Feed(s, f).state, cs + ChoicesIn(f))
  {
    var s0 := s.(frames := s.frames + 1);
    FeedCases(s, f);
    assert Represents(s0, cs);
    hide Feed, FeedChoices, Represents, Admissible, Show, ErrorObject;
    if FrameOk(f) && f.choices.Is? {
      ChoicesAccept(s0, {}, cs, f.choices.value);
      if FeedChoices(s0, {}, f.choices.value).Ok? { ShownClean(s0, f); }
    } else if FrameOk(f) {
      assert ChoicesIn(f) == [] && cs + [] == cs;
    }
  }

  /** Rebuilding an accepted frame never fails. */
  lemma ShownClean(s: State, f: Frame)
    requires f.Frame? && f.choices.Is? && !ErrorObject(f) && FeedChoices(s, {}, f.choices.value).Ok?
    ensures ShowFed(f, FeedChoices(s, {}, f.choices.value)).Ok?
    ensures ShowFed(f, FeedChoices(s, {}, f.choices.value)).state == FeedChoices(s, {}, f.choices.value).state
  {
    hide FeedChoices, CleanChoices, LiveTracks, FoldChoices, PureChoice;
    assert LiveTracks(map[], []) by { NothingTracked(); }
    var kept := ChoicesLive(s, {}, map[], [], f.choices.value);
    ShowLive(FeedChoices(s, {}, f.choices.value).state, f, FeedChoices(s, {}, f.choices.value).value, kept);
  }

  lemma NothingTracked()
    ensures LiveTracks(map[], [])
  {
  }

  /** The engine accepts exactly the admissible frame sequences. */
  lemma {:induction false} FramesAccept(s: State, cs: seq<Choice>, fs: seq<Frame>)
    requires Represents(s, cs)
    ensures FeedAll(s, fs).Ok? <==> FramesAdmissible(cs, fs)
    decreases |fs|
  {
    hide Feed, Represents, FrameOk, AllAdmissible, ChoicesIn;
    if fs != [] {
      FrameAccepts(s, cs, fs[0]);
      if Feed(s, fs[0]).Ok? {
        FramesAccept(Feed(s, fs[0]).state, cs + ChoicesIn(fs[0]), fs[1..]);
      }
    }
  }

  /** What the end demands of everything the stream said. */
  ghost predicate EndsWell(env: Env, cs: seq<Choice>) {
    && Indices(cs) != {}
    && (forall i | i in Indices(cs) :: ChoiceOk(env, i, StateOf(For(cs, i))))
    && (forall i, j | i in Indices(cs) && j in Indices(cs) && i != j ::
          IdsOf(env, i, StateOf(For(cs, i))) !! IdsOf(env, j, StateOf(For(cs, j))))
  }

  /** Main theorem: live streaming, collection and the fold accept a stream exactly when every
      line is good, the read completed, every choice is admissible after those before it, and
      everything said ends well. */
  lemma StreamAcceptedExactly(env: Env, lines: seq<Line>, readFails: bool)
    ensures WalkFrom(env, INITIAL, lines, readFails).verdict.Success? <==>
      && StopOf(lines).None? && !readFails
      && FramesAdmissible([], FramesOf(lines)) && EndsWell(env, ChoicesOf(FramesOf(lines)))
  {
    hide WalkFrom, FeedAll, End, FramesAdmissible, Bounded, Charged, StateOf, For, ChoiceOk, IdsOf, Indices, FramesOf,
      ChoicesOf;
    var fs := FramesOf(lines);
    WalkAccepts(env, INITIAL, lines, readFails);
    StartRepresents();
    FramesAccept(INITIAL, [], fs);
    if FeedAll(INITIAL, fs).Ok? {
      var s := FeedAll(INITIAL, fs).state;
      EngineIndices(fs);
      MeantIs(s.choices, ChoicesOf(fs));
      EndAccepts(env, s);
    }
  }

  lemma StartRepresents()
    ensures Represents(INITIAL, [])
  {
    InitiallyBounded();
  }
}
