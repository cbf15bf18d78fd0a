/** What every accepted frame keeps: the limits across all choices and the three counters. */
module StreamBounds {
  import opened Collections
  import opened Frames
  import opened StreamIntegrity
  import opened StreamMeaning

  ghost function BufferBytes(b: ToolBuffer): nat {
    |b.id| + |b.kind| + |b.name| + |b.args|
  }

  ghost function ToolCount(c: ChoiceState): nat {
    |c.tools|
  }

  ghost function ChoiceBytes(c: ChoiceState): nat {
    MapSum(c.tools, BufferBytes)
  }

  ghost function Finished(choices: map<nat, ChoiceState>): set<nat> {
    set i | i in choices && choices[i].finish != ""
  }

  ghost predicate Bounded(s: State) {
    && |s.choices| <= 32
    && s.tools == MapSum(s.choices, ToolCount) <= 128
    && s.finishes == |Finished(s.choices)|
    && MapSum(s.choices, ChoiceBytes) <= s.toolBytes <= 1048576
  }

  /** A checked fragment is charged for at least what it adds to the buffer. */
  lemma MergeBytes(s: State, prev: ToolBuffer, call: Call)
    requires call.Call? && CheckCall(s, prev, call).Ok?
    ensures BufferBytes(Merge(prev, call)) + s.toolBytes <= BufferBytes(prev) + CheckCall(s, prev, call).state.toolBytes
    ensures CheckCall(s, prev, call).state.toolBytes <= MAX_TOOL_BYTES
  {
  }

  /** What an accepted fragment does: one buffer merged, its bytes charged, a new tool counted. */
  lemma CallEffect(s: State, i: nat, call: Call) returns (t: nat, merged: ToolBuffer)
    requires i in s.choices && FeedCall(s, i, call).Ok?
    ensures var after, c := FeedCall(s, i, call).state, s.choices[i];
      && after == s.(choices := s.choices[i := c.(tools := c.tools[t := merged])],
                     toolBytes := after.toolBytes,
                     tools := if t in c.tools then s.tools else s.tools + 1)
      && (t in c.tools || s.tools < MAX_TOOLS)
      && BufferBytes(merged) + s.toolBytes <= (if t in c.tools then BufferBytes(c.tools[t]) else 0) + after.toolBytes
      && after.toolBytes <= MAX_TOOL_BYTES
  {
    hide CheckCall, Merge, BufferBytes;
    CallParts(s, i, call);
    t := IndexOf(call.index).value;
    var c := s.choices[i];
    var prev := if t in c.tools then c.tools[t] else NEW_TOOL;
    merged := Merge(prev, call);
    var ready := OpenTool(s, i, t);
    assert ready.choices[i].tools[t] == prev;
    MergeBytes(ready, prev, call);
    NewToolBytes();
    var checked := CheckCall(ready, prev, call);
    assert FeedCall(s, i, call) == Ok(PutTool(checked.state, i, t, merged), ());
    hide FeedCall;
  }

  lemma CallBounded(s: State, i: nat, call: Call)
    requires i in s.choices && Bounded(s) && FeedCall(s, i, call).Ok?
    ensures Bounded(FeedCall(s, i, call).state)
    ensures FeedCall(s, i, call).state.choices[i].finish == s.choices[i].finish
  {
    hide FeedCall, BufferBytes, MapSum, Finished;
    var t, merged := CallEffect(s, i, call);
    var c := s.choices[i];
    var c' := c.(tools := c.tools[t := merged]);
    MapSumPut(c.tools, t, merged, BufferBytes);
    MapSumPut(s.choices, i, c', ToolCount);
    MapSumPut(s.choices, i, c', ChoiceBytes);
    PutCount(c.tools, t, merged);
    SameFinished(s.choices, i, c');
  }

  lemma PutCount<V>(m: map<nat, V>, k: nat, v: V)
    ensures |m[k := v]| == |m| + if k in m then 0 else 1
  {
    assert m[k := v].Keys == m.Keys + {k};
  }

  lemma SameFinished(choices: map<nat, ChoiceState>, i: nat, c: ChoiceState)
    requires i in choices && choices[i].finish == c.finish
    ensures Finished(choices[i := c]) == Finished(choices) && |choices[i := c]| == |choices|
  {
    PutCount(choices, i, c);
  }

  lemma NewToolBytes()
    ensures BufferBytes(NEW_TOOL) == 0
  {
  }

  lemma {:induction false} CallsBounded(s: State, i: nat, calls: seq<Call>)
    requires i in s.choices && Bounded(s) && FeedCalls(s, i, calls).Ok?
    ensures Bounded(FeedCalls(s, i, calls).state)
    ensures FeedCalls(s, i, calls).state.choices[i].finish == s.choices[i].finish
    decreases |calls|
  {
    hide FeedCall, Bounded;
    if calls != [] {
      CallBounded(s, i, calls[0]);
      CallsBounded(FeedCall(s, i, calls[0]).state, i, calls[1..]);
    }
  }

  lemma FinishBounded(s: State, i: nat, f: Field<string>)
    requires i in s.choices && Bounded(s) && s.choices[i].finish == "" && FeedFinish(s, i, f).Ok?
    ensures Bounded(FeedFinish(s, i, f).state)
  {
    if Str(f) != "" {
      var c := s.choices[i].(finish := Str(f));
      var choices := s.choices[i := c];
      assert Finished(choices) == Finished(s.choices) + {i};
      assert |choices| == |s.choices|;
      MapSumPut(s.choices, i, c, ToolCount);
      MapSumPut(s.choices, i, c, ChoiceBytes);
    }
  }

  lemma OpenBounded(s: State, i: nat)
    requires Bounded(s) && (i in s.choices || |s.choices| < MAX_CHOICES)
    ensures Bounded(OpenChoice(s, i))
  {
    if i !in s.choices {
      var choices := s.choices[i := NEW_CHOICE];
      assert Finished(choices) == Finished(s.choices);
      MapSumPut(s.choices, i, NEW_CHOICE, ToolCount);
      MapSumPut(s.choices, i, NEW_CHOICE, ChoiceBytes);
      assert NEW_CHOICE.tools == map[] && ChoiceBytes(NEW_CHOICE) == 0;
    }
  }

  lemma ChoiceBounded(s: State, seen: set<nat>, c: Choice)
    requires Bounded(s) && FeedChoice(s, seen, c).Ok?
    ensures Bounded(FeedChoice(s, seen, c).state)
  {
    ChoiceParts(s, seen, c);
    ChoiceRoom(s, seen, c);
    hide FeedChoice, FeedCalls, FeedFinish, Bounded, IndexOf, DeltaOf;
    var i := IndexOf(c.index).value;
    var d := DeltaOf(c.delta);
    OpenBounded(s, i);
    var s2 := CountText(OpenChoice(s, i), d).state;
    TextBounded(OpenChoice(s, i), d);
    if Normalized(d).value.Is? {
      CallsBounded(s2, i, Normalized(d).value.value);
    }
    FinishBounded(FeedTools(s2, i, d).state, i, c.finish);
  }

  lemma ChoiceRoom(s: State, seen: set<nat>, c: Choice)
    requires FeedChoice(s, seen, c).Ok?
    ensures c.Choice? && IndexOf(c.index).Some?
    ensures IndexOf(c.index).value in s.choices || |s.choices| < MAX_CHOICES
  {
    hide FeedTools, FeedFinish, CountText;
  }

  lemma TextBounded(s: State, d: Delta)
    requires Bounded(s)
    ensures Bounded(CountText(s, d).state)
  {
    hide MapSum;
  }

  lemma {:induction false} ChoicesBounded(s: State, seen: set<nat>, cs: seq<Choice>)
    requires Bounded(s) && FeedChoices(s, seen, cs).Ok?
    ensures Bounded(FeedChoices(s, seen, cs).state)
    decreases |cs|
  {
    hide FeedChoice, Bounded;
    if cs != [] {
      ChoiceBounded(s, seen, cs[0]);
      var next := FeedChoice(s, seen, cs[0]);
      ChoicesBounded(next.state, next.value, cs[1..]);
    }
  }

  lemma FrameBounded(s: State, f: Frame)
    requires Bounded(s) && Feed(s, f).Ok?
    ensures Bounded(Feed(s, f).state)
  {
    hide FeedChoices, MapSum;
    var s0 := s.(frames := s.frames + 1);
    if f.choices.Is? {
      ChoicesBounded(s0, {}, f.choices.value);
    }
  }

  /** Every accepted frame sequence keeps all limits and counters. */
  lemma {:induction false} StreamBounded(s: State, fs: seq<Frame>)
    requires Bounded(s) && FeedAll(s, fs).Ok?
    ensures Bounded(FeedAll(s, fs).state)
    decreases |fs|
  {
    hide Feed, Bounded;
    if fs != [] {
      FrameBounded(s, fs[0]);
      StreamBounded(Feed(s, fs[0]).state, fs[1..]);
    }
  }

  lemma InitiallyBounded()
    ensures Bounded(INITIAL)
  {
    assert Finished(map[]) == {};
  }
}
