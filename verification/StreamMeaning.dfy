/** What a frame sequence means, said without the engine: everything addressed to one choice
    index, in arrival order. The lemmas show that the engine's buffers hold exactly that. */
module StreamMeaning {
  import opened Collections
  import opened Frames
  import opened StreamIntegrity

  function ChoicesIn(f: Frame): seq<Choice> {
    if f.Frame? && f.choices.Is? then f.choices.value else []
  }

  function ChoicesOf(fs: seq<Frame>): seq<Choice> {
    if fs == [] then [] else ChoicesOf(fs[..|fs| - 1]) + ChoicesIn(fs[|fs| - 1])
  }

  /** The choices addressed to index i. */
  function For(cs: seq<Choice>, i: nat): seq<Choice> {
    if cs == [] then []
    else
      var c := cs[|cs| - 1];
      For(cs[..|cs| - 1], i) + (if c.Choice? && IndexOf(c.index) == Some(i) then [c] else [])
  }

  function LastDelta(cs: seq<Choice>): Delta
    requires cs != []
  {
    var c := cs[|cs| - 1];
    if c.Choice? then DeltaOf(c.delta) else NO_DELTA
  }

  function Text(cs: seq<Choice>): string {
    if cs == [] then "" else Text(cs[..|cs| - 1]) + Str(LastDelta(cs).content)
  }

  function Reasoning(cs: seq<Choice>): string {
    if cs == [] then "" else Reasoning(cs[..|cs| - 1]) + Str(LastDelta(cs).reasoning)
  }

  /** The last role given. */
  function Role(cs: seq<Choice>): string {
    if cs == [] then ""
    else if LastDelta(cs).role.Is? then LastDelta(cs).role.value
    else Role(cs[..|cs| - 1])
  }

  /** The last finish reason declared, "" when there is none. */
  function FinishOf(cs: seq<Choice>): string {
    if cs == [] then ""
    else
      var c := cs[|cs| - 1];
      if c.Choice? && Str(c.finish) != "" then Str(c.finish) else FinishOf(cs[..|cs| - 1])
  }

  /** No text where a string could be: nothing, null, or an empty value of any type. */
  predicate NoText(f: Field<string>) {
    f == Absent || f == Null || f == Wrong(true) || f == Is("")
  }

  /** No legacy call: nothing, an empty value, or an object with neither name nor arguments nor any
      other member that is not empty. */
  predicate NoLegacyCall(f: Field<Function>) {
    || f == Absent || f == Null || f == Wrong(true)
    || (f.Is? && NoText(f.value.name) && NoText(f.value.arguments) && !f.value.more)
  }

  /** The tool-call fragments, a legacy function call counting as a fragment of call 0. */
  function CallsIn(d: Delta): seq<Call> {
    if d.legacy.Is? && !NoLegacyCall(d.legacy) then [Call(Is(0.0), Absent, Is("function"), d.legacy)]
    else if d.calls.Is? then d.calls.value
    else []
  }

  function CallsOf(cs: seq<Choice>): seq<Call> {
    if cs == [] then [] else CallsOf(cs[..|cs| - 1]) + CallsIn(LastDelta(cs))
  }

  predicate At(call: Call, t: nat) {
    call.Call? && IndexOf(call.index) == Some(t)
  }

  function CallsAt(calls: seq<Call>, t: nat): seq<Call> {
    if calls == [] then []
    else CallsAt(calls[..|calls| - 1], t) + (if At(calls[|calls| - 1], t) then [calls[|calls| - 1]] else [])
  }

  function CallIndices(calls: seq<Call>): set<nat> {
    if calls == [] then {}
    else
      var last := calls[|calls| - 1];
      CallIndices(calls[..|calls| - 1])
      + (if last.Call? && IndexOf(last.index).Some? then {IndexOf(last.index).value} else {})
  }

  function FirstId(calls: seq<Call>): string {
    if calls == [] then ""
    else
      var before := FirstId(calls[..|calls| - 1]);
      if before == "" && calls[|calls| - 1].Call? then Str(calls[|calls| - 1].id) else before
  }

  function FirstKind(calls: seq<Call>): string {
    if calls == [] then ""
    else
      var before := FirstKind(calls[..|calls| - 1]);
      if before == "" && calls[|calls| - 1].Call? then Str(calls[|calls| - 1].kind) else before
  }

  function NamePart(call: Call): string {
    if call.Call? && call.fn.Is? then Str(call.fn.value.name) else ""
  }

  function ArgsPart(call: Call): string {
    if call.Call? && call.fn.Is? then Str(call.fn.value.arguments) else ""
  }

  function NameOf(calls: seq<Call>): string {
    if calls == [] then "" else NameOf(calls[..|calls| - 1]) + NamePart(calls[|calls| - 1])
  }

  function ArgsOf(calls: seq<Call>): string {
    if calls == [] then "" else ArgsOf(calls[..|calls| - 1]) + ArgsPart(calls[|calls| - 1])
  }

  function BufferOf(calls: seq<Call>): ToolBuffer {
    ToolBuffer(FirstId(calls), FirstKind(calls), NameOf(calls), ArgsOf(calls))
  }

  function BuffersOf(calls: seq<Call>): map<nat, ToolBuffer> {
    map t | t in CallIndices(calls) :: BufferOf(CallsAt(calls, t))
  }

  function StateOf(cs: seq<Choice>): ChoiceState {
    ChoiceState(FinishOf(cs), BuffersOf(CallsOf(cs)))
  }

  /** The engine state holds, per choice index, exactly the meaning of what it was fed. */
  ghost predicate Tracks(choices: map<nat, ChoiceState>, cs: seq<Choice>) {
    && (forall i: nat :: i in choices <==> For(cs, i) != [])
    && (forall i: nat | i in choices :: choices[i] == StateOf(For(cs, i)))
  }

  /** Feeds a whole frame sequence; the value is what the client sees before the end. */
  function FeedAll(s: State, fs: seq<Frame>): Step<seq<Frame>>
    decreases |fs|
  {
    if fs == [] then Ok(s, [])
    else
      var (s1, out) :- Feed(s, fs[0]);
      var (s2, rest) :- FeedAll(s1, fs[1..]);
      Ok(s2, (if out.Some? then [out.value] else []) + rest)
  }

  // ----- the buffers hold the meaning

  lemma CallsAtStep(calls: seq<Call>, call: Call, t: nat)
    requires At(call, t)
    ensures CallIndices(calls + [call]) == CallIndices(calls) + {t}
    ensures forall u: nat ::
      CallsAt(calls + [call], u) == if u == t then CallsAt(calls, u) + [call] else CallsAt(calls, u)
  {
    assert (calls + [call])[..|calls|] == calls;
  }

  lemma BufferStep(calls: seq<Call>, call: Call)
    requires call.Call?
    ensures BufferOf(calls + [call]) == Merge(BufferOf(calls), call)
  {
    assert (calls + [call])[..|calls|] == calls;
  }

  lemma BuffersStep(calls: seq<Call>, call: Call, t: nat)
    requires At(call, t)
    ensures BuffersOf(calls + [call])
         == BuffersOf(calls)[t := Merge(if t in BuffersOf(calls) then BuffersOf(calls)[t] else NEW_TOOL, call)]
  {
    hide Merge, CallsAt, CallIndices, BufferOf;
    CallsAtStep(calls, call, t);
    BufferStep(CallsAt(calls, t), call);
    if t !in CallIndices(calls) {
      NoCallsAt(calls, t);
      NoBuffer();
    }
    var after := BuffersOf(calls + [call]);
    assert after.Keys == BuffersOf(calls).Keys + {t};
    forall u | u in after && u != t ensures u in BuffersOf(calls) && after[u] == BuffersOf(calls)[u] {
    }
  }

  lemma NoBuffer()
    ensures BufferOf([]) == NEW_TOOL
  {
  }

  lemma {:induction false} NoCallsAt(calls: seq<Call>, t: nat)
    requires t !in CallIndices(calls)
    ensures CallsAt(calls, t) == []
  {
    if calls != [] {
      NoCallsAt(calls[..|calls| - 1], t);
    }
  }

  lemma CallParts(s: State, i: nat, call: Call)
    requires i in s.choices && FeedCall(s, i, call).Ok?
    ensures call.Call? && IndexOf(call.index).Some?
    ensures var t := IndexOf(call.index).value;
      var tools := s.choices[i].tools;
      FeedCall(s, i, call).state.choices
      == s.choices[i := s.choices[i].(tools := tools[t := Merge(if t in tools then tools[t] else NEW_TOOL, call)])]
  {
    hide CheckCall, Merge;
    var t := IndexOf(call.index).value;
    var tools := s.choices[i].tools;
    var ready := OpenTool(s, i, t);
    var prev := ready.choices[i].tools[t];
    var merged := Merge(prev, call);
    assert prev == if t in tools then tools[t] else NEW_TOOL;
    assert tools[t := NEW_TOOL][t := merged] == tools[t := merged];
    var checked := CheckCall(ready, prev, call);
    assert FeedCall(s, i, call) == Ok(PutTool(checked.state, i, t, merged), ());
    assert checked.state.choices == ready.choices;
  }

  lemma FeedCallStep(s: State, i: nat, before: seq<Call>, call: Call)
    requires i in s.choices && s.choices[i].tools == BuffersOf(before)
    requires FeedCall(s, i, call).Ok?
    ensures FeedCall(s, i, call).state.choices == s.choices[i := s.choices[i].(tools := BuffersOf(before + [call]))]
  {
    CallParts(s, i, call);
    BuffersStep(before, call, IndexOf(call.index).value);
    hide *;
  }

  lemma {:induction false} FeedCallsTracks(s: State, i: nat, before: seq<Call>, calls: seq<Call>)
    requires i in s.choices && s.choices[i].tools == BuffersOf(before)
    requires FeedCalls(s, i, calls).Ok?
    ensures FeedCalls(s, i, calls).state.choices == s.choices[i := s.choices[i].(tools := BuffersOf(before + calls))]
    decreases |calls|
  {
    hide FeedCall, BuffersOf;
    if calls == [] {
      assert before + calls == before;
    } else {
      FeedCallStep(s, i, before, calls[0]);
      FeedCallsTracks(FeedCall(s, i, calls[0]).state, i, before + [calls[0]], calls[1..]);
      assert before + [calls[0]] + calls[1..] == before + calls;
    }
  }

  lemma FeedToolsTracks(s: State, i: nat, before: seq<Call>, d: Delta)
    requires i in s.choices && s.choices[i].tools == BuffersOf(before)
    requires FeedTools(s, i, d).Ok?
    ensures FeedTools(s, i, d).state.choices == s.choices[i := s.choices[i].(tools := BuffersOf(before + CallsIn(d)))]
  {
    var calls := Normalized(d).value;
    if calls.Is? {
      assert CallsIn(d) == calls.value;
      FeedCallsTracks(s, i, before, calls.value);
    } else {
      assert CallsIn(d) == [] && before + [] == before;
    }
  }

  lemma StateStep(s: State, i: nat, mine: seq<Choice>, c: Choice)
    requires i in s.choices && s.choices[i] == StateOf(mine)
    requires c.Choice? && !c.delta.Wrong?
    requires FeedTools(s, i, DeltaOf(c.delta)).Ok?
    requires FeedFinish(FeedTools(s, i, DeltaOf(c.delta)).state, i, c.finish).Ok?
    ensures FeedFinish(FeedTools(s, i, DeltaOf(c.delta)).state, i, c.finish).state.choices
         == s.choices[i := StateOf(mine + [c])]
  {
    hide FeedTools, BuffersOf;
    FeedToolsTracks(s, i, CallsOf(mine), DeltaOf(c.delta));
    assert (mine + [c])[..|mine|] == mine;
    assert LastDelta(mine + [c]) == DeltaOf(c.delta);
  }

  lemma ChoiceParts(s: State, seen: set<nat>, c: Choice)
    requires FeedChoice(s, seen, c).Ok?
    ensures c.Choice? && IndexOf(c.index).Some? && !c.delta.Wrong? && CountText(s, DeltaOf(c.delta)).Ok?
    ensures var i, d := IndexOf(c.index).value, DeltaOf(c.delta);
      var s1 := OpenChoice(s, i);
      && i !in seen && (i in s.choices ==> s.choices[i].finish == "")
      && CountText(s1, d).Ok?
      && FeedTools(CountText(s1, d).state, i, d).Ok?
      && FeedFinish(FeedTools(CountText(s1, d).state, i, d).state, i, c.finish).Ok?
      && FeedChoice(s, seen, c)
         == Ok(FeedFinish(FeedTools(CountText(s1, d).state, i, d).state, i, c.finish).state, seen + {i})
  {
    hide FeedTools, FeedFinish;
  }

  /** Feeding one accepted choice extends the meaning of its index by that choice. */
  lemma FeedChoiceTracks(s: State, seen: set<nat>, cs: seq<Choice>, c: Choice)
    requires Tracks(s.choices, cs) && FeedChoice(s, seen, c).Ok?
    ensures Tracks(FeedChoice(s, seen, c).state.choices, cs + [c])
  {
    hide FeedChoice, FeedTools, FeedFinish, StateOf, For, IndexOf, DeltaOf;
    ChoiceParts(s, seen, c);
    var i := IndexOf(c.index).value;
    var s1 := OpenChoice(s, i);
    EmptyState();
    assert s1.choices == s.choices[i := StateOf(For(cs, i))];
    StateStep(CountText(s1, DeltaOf(c.delta)).state, i, For(cs, i), c);
    TracksStep(s.choices, cs, c, FeedChoice(s, seen, c).state.choices);
  }

  lemma TracksStep(choices: map<nat, ChoiceState>, cs: seq<Choice>, c: Choice, after: map<nat, ChoiceState>)
    requires Tracks(choices, cs) && c.Choice? && IndexOf(c.index).Some?
    requires var i := IndexOf(c.index).value; after == choices[i := StateOf(For(cs, i) + [c])]
    ensures Tracks(after, cs + [c])
  {
    hide StateOf, For, IndexOf;
    ForAppend(cs, c);
  }

  lemma EmptyState()
    ensures StateOf([]) == NEW_CHOICE
  {
    assert BuffersOf([]) == map[];
  }

  lemma ForAppend(cs: seq<Choice>, c: Choice)
    requires c.Choice? && IndexOf(c.index).Some?
    ensures forall j: nat :: For(cs + [c], j) == if IndexOf(c.index).value == j then For(cs, j) + [c] else For(cs, j)
  {
    assert (cs + [c])[..|cs|] == cs;
  }

  lemma {:induction false} FeedChoicesTracks(s: State, seen: set<nat>, cs: seq<Choice>, ds: seq<Choice>)
    requires Tracks(s.choices, cs) && FeedChoices(s, seen, ds).Ok?
    ensures Tracks(FeedChoices(s, seen, ds).state.choices, cs + ds)
    decreases |ds|
  {
    hide FeedChoice, Tracks;
    if ds == [] {
      assert cs + ds == cs;
    } else {
      FeedChoiceTracks(s, seen, cs, ds[0]);
      var next := FeedChoice(s, seen, ds[0]);
      FeedChoicesTracks(next.state, next.value, cs + [ds[0]], ds[1..]);
      assert cs + [ds[0]] + ds[1..] == cs + ds;
    }
  }

  lemma FeedTracks(s: State, cs: seq<Choice>, f: Frame)
    requires Tracks(s.choices, cs) && Feed(s, f).Ok?
    ensures Tracks(Feed(s, f).state.choices, cs + ChoicesIn(f))
  {
    var s0 := s.(frames := s.frames + 1);
    FeedParts(s, f);
    hide Feed, FeedChoices, Tracks;
    if f.choices.Absent? {
      assert cs + ChoicesIn(f) == cs;
      SameTracks(s, s0, cs);
    } else {
      SameTracks(s, s0, cs);
      FeedChoicesTracks(s0, {}, cs, f.choices.value);
    }
  }

  lemma SameTracks(s: State, s0: State, cs: seq<Choice>)
    requires s0.choices == s.choices && Tracks(s.choices, cs)
    ensures Tracks(s0.choices, cs)
  {
  }

  lemma FeedParts(s: State, f: Frame)
    requires Feed(s, f).Ok?
    ensures var s0 := s.(frames := s.frames + 1);
      && f.Frame? && (f.choices.Absent? || f.choices.Is?)
      && (f.choices.Absent? ==> Feed(s, f).state == s0)
      && (f.choices.Is? ==>
            && FeedChoices(s0, {}, f.choices.value).Ok?
            && Feed(s, f).state == FeedChoices(s0, {}, f.choices.value).state)
  {
    hide FeedChoices, Clean, ErrorObject;
  }

  lemma ChoicesOfCons(f: Frame, fs: seq<Frame>)
    ensures ChoicesOf([f] + fs) == ChoicesIn(f) + ChoicesOf(fs)
  {
    if fs == [] {
      assert [f] + fs == [f] && [f][..0] == [];
    } else {
      var init := fs[..|fs| - 1];
      assert ([f] + fs)[..|fs|] == [f] + init;
      ChoicesOfCons(f, init);
    }
  }

  /** Main invariant: after any accepted frames the engine's state per choice is exactly
      the arrival-order meaning of the fragments addressed to that choice. */
  lemma {:induction false} EngineHoldsMeaning(s: State, cs: seq<Choice>, fs: seq<Frame>)
    requires Tracks(s.choices, cs) && FeedAll(s, fs).Ok?
    ensures Tracks(FeedAll(s, fs).state.choices, cs + ChoicesOf(fs))
    decreases |fs|
  {
    hide Feed, Tracks, ChoicesIn;
    if fs == [] {
      assert cs + ChoicesOf(fs) == cs;
    } else {
      FeedTracks(s, cs, fs[0]);
      EngineHoldsMeaning(Feed(s, fs[0]).state, cs + ChoicesIn(fs[0]), fs[1..]);
      assert [fs[0]] + fs[1..] == fs;
      ChoicesOfCons(fs[0], fs[1..]);
      assert cs + ChoicesIn(fs[0]) + ChoicesOf(fs[1..]) == cs + ChoicesOf(fs);
    }
  }
}
