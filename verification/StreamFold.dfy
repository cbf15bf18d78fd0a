/** The non-streaming fold over emitted frames, and the theorem that folding what the engine
    emits yields exactly the meaning of the stream it accepted. */
module StreamFold {
  import opened Collections
  import opened Frames
  import opened StreamIntegrity
  import opened StreamMeaning

  datatype Folded = Folded(content: string, reasoning: string, role: string, finish: string, tools: seq<Call>)

  datatype Fold = Fold(choices: map<nat, Folded>, usage: Field<int>)

  const NOTHING := Folded("", "", "", "", [])
  const EMPTY_FOLD := Fold(map[], Absent)

  function AtIndex(choices: map<nat, Folded>, i: nat): Folded {
    if i in choices then choices[i] else NOTHING
  }

  /** A choice without a usable index folds into index 0. */
  function FoldIndex(c: Choice): nat
    requires c.Choice?
  {
    if IndexOf(c.index).Some? then IndexOf(c.index).value else 0
  }

  function FoldDelta(f: Folded, d: Delta, finish: Field<string>): Folded {
    Folded(f.content + Str(d.content), f.reasoning + Str(d.reasoning),
           if d.role.Is? then d.role.value else f.role,
           if finish.Is? then finish.value else f.finish,
           if d.calls.Is? then d.calls.value else f.tools)
  }

  function FoldChoice(choices: map<nat, Folded>, c: Choice): map<nat, Folded>
    requires c.Choice?
  {
    choices[FoldIndex(c) := FoldDelta(AtIndex(choices, FoldIndex(c)), DeltaOf(c.delta), c.finish)]
  }

  ghost predicate AllChoices(cs: seq<Choice>) {
    forall c | c in cs :: c.Choice?
  }

  function FoldChoices(choices: map<nat, Folded>, cs: seq<Choice>): map<nat, Folded>
    requires AllChoices(cs)
    decreases |cs|
  {
    if cs == [] then choices else FoldChoices(FoldChoice(choices, cs[0]), cs[1..])
  }

  /** The frames the fold can take: JSON objects whose choices are objects. */
  ghost predicate Foldable(f: Frame) {
    f.Frame? && AllChoices(ChoicesIn(f))
  }

  function FoldFrame(acc: Fold, f: Frame): Fold
    requires Foldable(f)
  {
    Fold(FoldChoices(acc.choices, ChoicesIn(f)), if f.usage.Absent? then acc.usage else f.usage)
  }

  ghost predicate AllFoldable(fs: seq<Frame>) {
    forall f | f in fs :: Foldable(f)
  }

  function FoldFrames(acc: Fold, fs: seq<Frame>): Fold
    requires AllFoldable(fs)
    decreases |fs|
  {
    if fs == [] then acc else FoldFrames(FoldFrame(acc, fs[0]), fs[1..])
  }

  /** The completion choices in ascending index order. */
  function Rendered(choices: map<nat, Folded>, order: seq<nat>): seq<(nat, Folded)> {
    if order == [] then [] else [(order[0], AtIndex(choices, order[0]))] + Rendered(choices, order[1..])
  }

  function Aggregate(fs: seq<Frame>): (seq<(nat, Folded)>, Field<int>)
    requires AllFoldable(fs)
  {
    var acc := FoldFrames(EMPTY_FOLD, fs);
    (Rendered(acc.choices, Ascending(acc.choices.Keys)), acc.usage)
  }

  // ----- what the completion must be, from the frames alone

  function UsageOf(fs: seq<Frame>): Field<int> {
    if fs == [] then Absent
    else
      var f := fs[|fs| - 1];
      if f.Frame? && !f.usage.Absent? then f.usage else UsageOf(fs[..|fs| - 1])
  }

  function Indices(cs: seq<Choice>): set<nat> {
    if cs == [] then {}
    else
      var c := cs[|cs| - 1];
      Indices(cs[..|cs| - 1]) + (if c.Choice? && IndexOf(c.index).Some? then {IndexOf(c.index).value} else {})
  }

  /** One tool call per tool index in ascending order, from the arrival-order fragments. */
  function CallsMeant(env: Env, i: nat, calls: seq<Call>, order: seq<nat>): seq<Call> {
    if order == [] then []
    else
      var mine := CallsAt(calls, order[0]);
      var id := if FirstId(mine) == "" then "call_qoder_" + env.nonce + "_" + Digits(i) + "_" + Digits(order[0])
                else FirstId(mine);
      [Call(Is(order[0] as real), Is(id), Is("function"), Is(Function(Is(NameOf(mine)), Is(ArgsOf(mine)), false)))]
      + CallsMeant(env, i, calls, order[1..])
  }

  function ChoiceMeant(env: Env, i: nat, cs: seq<Choice>): Folded {
    Folded(Text(cs), Reasoning(cs), Role(cs), FinishOf(cs),
           if FinishOf(cs) in ["length", "content_filter"] then []
           else CallsMeant(env, i, CallsOf(cs), Ascending(CallIndices(CallsOf(cs)))))
  }

  function ChoicesMeant(env: Env, cs: seq<Choice>, order: seq<nat>): seq<(nat, Folded)> {
    if order == [] then []
    else [(order[0], ChoiceMeant(env, order[0], For(cs, order[0])))] + ChoicesMeant(env, cs, order[1..])
  }

  function Completion(env: Env, fs: seq<Frame>): (seq<(nat, Folded)>, Field<int>) {
    (ChoicesMeant(env, ChoicesOf(fs), Ascending(Indices(ChoicesOf(fs)))), UsageOf(fs))
  }

  // ----- before the end: folding the visible frames collects text, reasoning and role

  ghost function LiveMeant(cs: seq<Choice>): Folded {
    Folded(Text(cs), Reasoning(cs), Role(cs), "", [])
  }

  ghost predicate LiveTracks(choices: map<nat, Folded>, cs: seq<Choice>) {
    && (forall i: nat :: AtIndex(choices, i) == LiveMeant(For(cs, i)))
    && (forall i: nat | i in choices :: For(cs, i) != [])
  }

  /** What the client sees of an accepted choice: its cleaned delta without calls. */
  function Kept(c: Choice): seq<Choice>
    requires c.Choice?
  {
    var d := CleanDelta(DeltaOf(c.delta).(legacy := Absent, calls := Absent));
    if d == NO_DELTA then [] else [c.(delta := Is(d), finish := Absent)]
  }

  lemma KeptIsVisible(c: Choice)
    requires c.Choice?
    ensures CleanChoices(Visible(c)) == Success(Kept(c))
  {
    var d := DeltaOf(c.delta).(legacy := Absent, calls := Absent);
    if d != NO_DELTA {
      var v := c.(delta := Is(d), finish := Absent);
      assert [v][1..] == [] && Kept(c) + [] == Kept(c);
      assert CleanChoice(v) == Success(Kept(c));
    }
  }

  lemma {:induction false} CleanAppend(cs: seq<Choice>, ds: seq<Choice>)
    requires CleanChoices(cs).Success? && CleanChoices(ds).Success?
    ensures CleanChoices(cs + ds) == Success(CleanChoices(cs).value + CleanChoices(ds).value)
  {
    hide CleanChoice;
    if cs == [] {
      assert cs + ds == ds;
      assert [] + CleanChoices(ds).value == CleanChoices(ds).value;
    } else {
      assert (cs + ds)[0] == cs[0] && (cs + ds)[1..] == cs[1..] + ds;
      CleanAppend(cs[1..], ds);
      var first := CleanChoice(cs[0]).value;
      var rest := CleanChoices(cs[1..]).value;
      assert first + (rest + CleanChoices(ds).value) == first + rest + CleanChoices(ds).value;
    }
  }

  /** Dropping the padding loses no text, reasoning or role. */
  lemma KeptFolds(f: Folded, c: Choice)
    requires c.Choice?
    ensures FoldDelta(f, DeltaOf(c.delta).(calls := Absent), Absent)
         == if Kept(c) == [] then f else FoldDelta(f, DeltaOf(Kept(c)[0].delta), Kept(c)[0].finish)
    ensures |Kept(c)| <= 1 && AllChoices(Kept(c))
    ensures Kept(c) != [] ==> Kept(c)[0].index == c.index && PureChoice(Kept(c)[0])
  {
    assert f.content + "" == f.content && f.reasoning + "" == f.reasoning;
  }

  lemma LiveStep(mine: seq<Choice>, c: Choice)
    requires c.Choice?
    ensures LiveMeant(mine + [c]) == FoldDelta(LiveMeant(mine), DeltaOf(c.delta).(calls := Absent), Absent)
  {
    assert (mine + [c])[..|mine|] == mine;
  }

  lemma VisibleFolds(choices: map<nat, Folded>, cs: seq<Choice>, c: Choice)
    requires LiveTracks(choices, cs) && c.Choice? && IndexOf(c.index).Some?
    ensures AllChoices(Kept(c))
    ensures LiveTracks(FoldChoices(choices, Kept(c)), cs + [c])
  {
    hide LiveMeant, FoldDelta, DeltaOf, Kept, For, IndexOf;
    var i := IndexOf(c.index).value;
    ForAppend(cs, c);
    LiveStep(For(cs, i), c);
    KeptFolds(LiveMeant(For(cs, i)), c);
    var kept := Kept(c);
    if kept != [] {
      assert FoldChoices(choices, kept) == FoldChoice(choices, kept[0]) by {
        assert kept[1..] == [];
      }
      assert FoldIndex(kept[0]) == i;
      assert FoldChoice(choices, kept[0]) == choices[i := LiveMeant(For(cs, i) + [c])];
    }
  }

  lemma {:induction false} FoldChoicesAppend(choices: map<nat, Folded>, cs: seq<Choice>, ds: seq<Choice>)
    requires AllChoices(cs) && AllChoices(ds)
    ensures AllChoices(cs + ds)
    ensures FoldChoices(choices, cs + ds) == FoldChoices(FoldChoices(choices, cs), ds)
    decreases |cs|
  {
    hide FoldChoice;
    if cs == [] {
      assert cs + ds == ds;
    } else {
      assert (cs + ds)[0] == cs[0] && (cs + ds)[1..] == cs[1..] + ds;
      FoldChoicesAppend(FoldChoice(choices, cs[0]), cs[1..], ds);
    }
  }

  // ----- nothing visible before the end carries a call or a finish

  ghost predicate PureChoice(c: Choice) {
    c.Choice? && c.finish.Absent? && c.delta.Is? && c.delta.value.calls.Absent? && c.delta.value.legacy.Absent?
  }

  ghost predicate PureFrame(f: Frame) {
    f.Frame? && forall c | c in ChoicesIn(f) :: PureChoice(c)
  }

  lemma {:induction false} ChoicesLive(s: State, seen: set<nat>, choices: map<nat, Folded>, cs: seq<Choice>,
          ds: seq<Choice>)
    returns (kept: seq<Choice>)
    requires LiveTracks(choices, cs) && FeedChoices(s, seen, ds).Ok?
    ensures CleanChoices(FeedChoices(s, seen, ds).value) == Success(kept)
    ensures AllChoices(kept) && forall c | c in kept :: PureChoice(c)
    ensures LiveTracks(FoldChoices(choices, kept), cs + ds)
    decreases |ds|
  {
    hide FeedChoice, FoldChoice, LiveTracks, Visible, IndexOf, CleanChoice;
    if ds == [] {
      kept := [];
      assert cs + ds == cs;
    } else {
      ChoiceParts(s, seen, ds[0]);
      VisibleFolds(choices, cs, ds[0]);
      KeptIsVisible(ds[0]);
      var next := FeedChoice(s, seen, ds[0]);
      var rest := ChoicesLive(next.state, next.value, FoldChoices(choices, Kept(ds[0])), cs + [ds[0]], ds[1..]);
      assert cs + [ds[0]] + ds[1..] == cs + ds;
      kept := Kept(ds[0]) + rest;
      CleanAppend(Visible(ds[0]), FeedChoices(next.state, next.value, ds[1..]).value);
      FoldChoicesAppend(choices, Kept(ds[0]), rest);
    }
  }

  ghost predicate AllPure(fs: seq<Frame>) {
    forall f | f in fs :: PureFrame(f)
  }

  lemma ShowLive(s: State, f: Frame, visible: seq<Choice>, kept: seq<Choice>)
    requires f.Frame? && f.choices.Is? && !ErrorObject(f) && CleanChoices(visible) == Success(kept)
    ensures Show(s, f, visible)
         == Ok(s, if kept == [] && f.usage.Absent? then None else Some(f.(choices := Is(kept))))
  {
    if visible == [] {
      assert kept == [];
    }
  }

  /** Folding what one accepted frame shows adds exactly that frame's text and usage. */
  lemma FrameLive(s: State, acc: Fold, cs: seq<Choice>, f: Frame) returns (after: Fold)
    requires LiveTracks(acc.choices, cs) && Feed(s, f).Ok?
    ensures Feed(s, f).value.Some? ==> PureFrame(Feed(s, f).value.value)
    ensures after == if Feed(s, f).value.Some? then FoldFrame(acc, Feed(s, f).value.value) else acc
    ensures LiveTracks(after.choices, cs + ChoicesIn(f))
    ensures f.Frame? && after.usage == if f.usage.Absent? then acc.usage else f.usage
  {
    hide FeedChoices, LiveTracks, PureChoice;
    after := acc;
    var s0 := s.(frames := s.frames + 1);
    if f.choices.Absent? {
      assert Feed(s, f) == Ok(s0, Some(f));
      assert cs + ChoicesIn(f) == cs && FoldChoices(acc.choices, []) == acc.choices;
      after := FoldFrame(acc, f);
    } else {
      var fed := FeedChoices(s0, {}, f.choices.value);
      assert Feed(s, f) == ShowFed(f, fed);
      var kept := ChoicesLive(s0, {}, acc.choices, cs, f.choices.value);
      ShowLive(fed.state, f, fed.value, kept);
      if Feed(s, f).value.Some? {
        var out := Feed(s, f).value.value;
        assert ChoicesIn(out) == kept;
        PureIsFoldable(out);
        after := FoldFrame(acc, out);
      }
    }
  }

  lemma PureIsFoldable(f: Frame)
    requires PureFrame(f)
    ensures Foldable(f)
  {
  }

  lemma UsageOfCons(f: Frame, fs: seq<Frame>)
    requires f.Frame?
    ensures UsageOf([f] + fs) == if !UsageOf(fs).Absent? then UsageOf(fs) else f.usage
  {
    if fs == [] {
      assert [f] + fs == [f] && [f][..0] == [];
    } else {
      assert ([f] + fs)[..|fs|] == [f] + fs[..|fs| - 1];
      UsageOfCons(f, fs[..|fs| - 1]);
    }
  }

  lemma {:induction false} StreamLive(s: State, acc: Fold, cs: seq<Choice>, fs: seq<Frame>) returns (after: Fold)
    requires LiveTracks(acc.choices, cs) && FeedAll(s, fs).Ok?
    ensures AllPure(FeedAll(s, fs).value) && AllFoldable(FeedAll(s, fs).value)
    ensures after == FoldFrames(acc, FeedAll(s, fs).value)
    ensures LiveTracks(after.choices, cs + ChoicesOf(fs))
    ensures after.usage == if UsageOf(fs).Absent? then acc.usage else UsageOf(fs)
    decreases |fs|
  {
    hide Feed, LiveTracks, FoldFrame, PureFrame, Foldable, ChoicesIn;
    if fs == [] {
      after := acc;
      assert cs + ChoicesOf(fs) == cs;
    } else {
      var mid := FrameLive(s, acc, cs, fs[0]);
      if Feed(s, fs[0]).value.Some? {
        PureIsFoldable(Feed(s, fs[0]).value.value);
      }
      after := StreamLive(Feed(s, fs[0]).state, mid, cs + ChoicesIn(fs[0]), fs[1..]);
      assert [fs[0]] + fs[1..] == fs;
      ChoicesOfCons(fs[0], fs[1..]);
      UsageOfCons(fs[0], fs[1..]);
      assert cs + ChoicesIn(fs[0]) + ChoicesOf(fs[1..]) == cs + ChoicesOf(fs);
      var rest := FeedAll(Feed(s, fs[0]).state, fs[1..]).value;
      if Feed(s, fs[0]).value.Some? {
        var out := Feed(s, fs[0]).value.value;
        assert ([out] + rest)[0] == out && ([out] + rest)[1..] == rest;
      } else {
        assert [] + rest == rest;
      }
    }
  }

  lemma {:induction false} FoldFramesAppend(acc: Fold, fs: seq<Frame>, gs: seq<Frame>)
    requires AllFoldable(fs) && AllFoldable(gs)
    ensures AllFoldable(fs + gs) && FoldFrames(acc, fs + gs) == FoldFrames(FoldFrames(acc, fs), gs)
    decreases |fs|
  {
    hide FoldFrame, Foldable;
    if fs == [] {
      assert fs + gs == gs;
    } else {
      assert (fs + gs)[0] == fs[0] && (fs + gs)[1..] == fs[1..] + gs;
      FoldFramesAppend(FoldFrame(acc, fs[0]), fs[1..], gs);
    }
  }

  // ----- the end: terminals add the finish and the tool calls

  lemma {:induction false} EndToolsMeant(env: Env, i: nat, calls: seq<Call>, order: seq<nat>, ids: set<string>)
    requires forall t | t in order :: t in BuffersOf(calls)
    requires EndTools(env, i, BuffersOf(calls), order, ids).Success?
    ensures EndTools(env, i, BuffersOf(calls), order, ids).value.0 == CallsMeant(env, i, calls, order)
  {
    if order != [] {
      var t := order[0];
      assert BuffersOf(calls)[t] == BufferOf(CallsAt(calls, t));
      EndToolsMeant(env, i, calls, order[1..], ids + {CallId(env, i, t, BuffersOf(calls)[t])});
    }
  }

  lemma EndChoiceMeant(env: Env, i: nat, cs: seq<Choice>, ids: set<string>)
    requires EndChoice(env, i, StateOf(cs), ids).Success?
    ensures EndChoice(env, i, StateOf(cs), ids).value.0 == ChoiceMeant(env, i, cs).tools
  {
    hide CallsMeant, EndTools, CallIndices, CallsAt;
    var calls := CallsOf(cs);
    assert BuffersOf(calls).Keys == CallIndices(calls);
    if !Truncated(FinishOf(cs)) {
      EndToolsMeant(env, i, calls, Ascending(CallIndices(calls)), ids);
    }
  }

  lemma TerminalFolds(acc: Fold, i: nat, finish: string, calls: seq<Call>)
    requires i <= 65535 && AtIndex(acc.choices, i).tools == []
    ensures Foldable(Terminal(i, finish, calls))
    ensures FoldFrame(acc, Terminal(i, finish, calls))
         == acc.(choices := acc.choices[i := AtIndex(acc.choices, i).(finish := finish, tools := calls)])
  {
    var f := Terminal(i, finish, calls);
    var c := ChoicesIn(f)[0];
    assert (i as real).Floor == i && IndexOf(c.index) == Some(i);
    assert ChoicesIn(f) == [c] && [c][1..] == [];
    var at := AtIndex(acc.choices, i);
    assert at.content + "" == at.content && at.reasoning + "" == at.reasoning;
    assert FoldChoices(acc.choices, [c]) == FoldChoice(acc.choices, c);
  }

  lemma {:induction false} ForBounded(cs: seq<Choice>, i: nat)
    requires For(cs, i) != []
    ensures i <= 65535 && i in Indices(cs)
  {
    var c := cs[|cs| - 1];
    if !(c.Choice? && IndexOf(c.index) == Some(i)) {
      ForBounded(cs[..|cs| - 1], i);
    }
  }

  lemma {:induction false} IndicesAddressed(cs: seq<Choice>)
    ensures forall i: nat :: i in Indices(cs) ==> For(cs, i) != []
  {
    if cs != [] {
      IndicesAddressed(cs[..|cs| - 1]);
    }
  }

  lemma {:induction false} TerminalsFold(env: Env, choices: map<nat, ChoiceState>, cs: seq<Choice>, acc: Fold,
                                         order: seq<nat>, ids: set<string>)
    returns (after: Fold)
    requires Tracks(choices, cs) && StrictlyAscending(order) && forall i | i in order :: i in choices
    requires EndChoices(env, choices, order, ids).Success?
    requires forall i | i in order :: AtIndex(acc.choices, i) == LiveMeant(For(cs, i))
    ensures AllFoldable(EndChoices(env, choices, order, ids).value)
    ensures after == FoldFrames(acc, EndChoices(env, choices, order, ids).value)
    ensures after.usage == acc.usage && after.choices.Keys == acc.choices.Keys + (set i | i in order)
    ensures forall i: nat | i in order :: AtIndex(after.choices, i) == ChoiceMeant(env, i, For(cs, i))
    ensures forall i: nat | i !in order :: AtIndex(after.choices, i) == AtIndex(acc.choices, i)
    decreases |order|
  {
    hide LiveMeant, For, ChoiceMeant, EndChoice, Terminal, Foldable, FoldFrame, StateOf, Tracks, StrictlyAscending;
    if order == [] {
      after := acc;
    } else {
      var i := order[0];
      var ended := EndChoice(env, i, choices[i], ids);
      var first := Terminal(i, choices[i].finish, ended.value.0);
      TerminalStep(env, choices, cs, acc, i, ids);
      var step := FoldFrame(acc, first);
      TailFacts(order);
      after := TerminalsFold(env, choices, cs, step, order[1..], ended.value.1);
      var rest := EndChoices(env, choices, order[1..], ended.value.1).value;
      assert ([first] + rest)[0] == first && ([first] + rest)[1..] == rest;
    }
  }

  lemma TailFacts(order: seq<nat>)
    requires StrictlyAscending(order) && order != []
    ensures StrictlyAscending(order[1..]) && order[0] !in order[1..]
    ensures forall i :: i in order <==> i == order[0] || i in order[1..]
  {
    assert forall k | 0 <= k < |order[1..]| :: order[1..][k] == order[k + 1];
    assert order == [order[0]] + order[1..];
  }

  /** Folding the terminal of choice i completes it. */
  lemma TerminalStep(env: Env, choices: map<nat, ChoiceState>, cs: seq<Choice>, acc: Fold, i: nat, ids: set<string>)
    requires Tracks(choices, cs) && i in choices && EndChoice(env, i, choices[i], ids).Success?
    requires AtIndex(acc.choices, i) == LiveMeant(For(cs, i))
    ensures var first := Terminal(i, choices[i].finish, EndChoice(env, i, choices[i], ids).value.0);
      Foldable(first) && FoldFrame(acc, first) == acc.(choices := acc.choices[i := ChoiceMeant(env, i, For(cs, i))])
  {
    hide LiveMeant, For, ChoiceMeant, EndChoice, Terminal, Foldable, FoldFrame, StateOf;
    ForBounded(cs, i);
    EndChoiceMeant(env, i, For(cs, i), ids);
    LiveTools(For(cs, i));
    TerminalFolds(acc, i, choices[i].finish, EndChoice(env, i, choices[i], ids).value.0);
    TerminalMeant(env, i, For(cs, i), EndChoice(env, i, choices[i], ids).value.0);
  }

  lemma LiveTools(cs: seq<Choice>)
    ensures LiveMeant(cs).tools == []
  {
  }

  lemma TerminalMeant(env: Env, i: nat, cs: seq<Choice>, calls: seq<Call>)
    requires calls == ChoiceMeant(env, i, cs).tools
    ensures LiveMeant(cs).(finish := StateOf(cs).finish, tools := calls) == ChoiceMeant(env, i, cs)
  {
  }

  lemma {:induction false} RenderedMeant(env: Env, choices: map<nat, Folded>, cs: seq<Choice>, order: seq<nat>)
    requires forall i | i in order :: AtIndex(choices, i) == ChoiceMeant(env, i, For(cs, i))
    ensures Rendered(choices, order) == ChoicesMeant(env, cs, order)
  {
    if order != [] {
      RenderedMeant(env, choices, cs, order[1..]);
    }
  }

  ghost predicate Accepted(env: Env, fs: seq<Frame>) {
    FeedAll(INITIAL, fs).Ok? && End(env, FeedAll(INITIAL, fs).state).Success?
  }

  /** Everything an accepted stream emits: its shown frames, then its terminals. */
  ghost function EmittedBy(env: Env, fs: seq<Frame>): seq<Frame>
    requires Accepted(env, fs)
  {
    FeedAll(INITIAL, fs).value + End(env, FeedAll(INITIAL, fs).state).value
  }

  /** Main theorem: for every accepted stream, folding the emitted frames and terminals
      gives exactly the completion the accepted frames mean, choice by choice. */
  lemma FoldRefinement(env: Env, fs: seq<Frame>)
    ensures Accepted(env, fs) ==>
      AllFoldable(EmittedBy(env, fs)) && Aggregate(EmittedBy(env, fs)) == Completion(env, fs)
  {
    if Accepted(env, fs) {
      var fed := FeedAll(INITIAL, fs);
      var choices, cs := fed.state.choices, ChoicesOf(fs);
      var live := LiveFold(fs);
      var order := Ascending(choices.Keys);
      hide FeedAll, ChoicesOf, Ascending, EndChoices, FoldFrames, For, ChoiceMeant, LiveMeant, Rendered, ChoicesMeant,
        Indices;
      hide Tracks, StrictlyAscending;
      var after := TerminalsFold(env, choices, cs, live, order, {});
      FoldFramesAppend(EMPTY_FOLD, fed.value, EndChoices(env, choices, order, {}).value);
      assert after.choices.Keys == choices.Keys;
      RenderedMeant(env, after.choices, cs, order);
    }
  }

  /** Before the end: the engine holds the meaning of the frames, and folding what was shown has
      collected their text. */
  lemma LiveFold(fs: seq<Frame>)
    returns (live: Fold)
    requires FeedAll(INITIAL, fs).Ok?
    ensures var fed, cs := FeedAll(INITIAL, fs), ChoicesOf(fs);
      && Tracks(fed.state.choices, cs) && fed.state.choices.Keys == Indices(cs)
      && AllFoldable(fed.value) && live == FoldFrames(EMPTY_FOLD, fed.value)
      && live.usage == UsageOf(fs) && live.choices.Keys <= Indices(cs)
      && forall i: nat :: AtIndex(live.choices, i) == LiveMeant(For(cs, i))
  {
    var cs := ChoicesOf(fs);
    assert Tracks(map[], []) && LiveTracks(map[], []) && [] + cs == cs;
    EngineHoldsMeaning(INITIAL, [], fs);
    live := StreamLive(INITIAL, EMPTY_FOLD, [], fs);
    hide FeedAll, ChoicesOf, FoldFrames, For, LiveMeant, Indices, UsageOf, StateOf;
    IndicesAddressed(cs);
    forall i: nat | For(cs, i) != [] ensures i in Indices(cs) { ForBounded(cs, i); }
  }
}
