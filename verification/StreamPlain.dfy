/** What accepted streams look like to the client, with every field, finish reason and number
    written out: the frames shown on the way, the terminals, and the folded completion. */
module StreamPlain {
  import opened Collections
  import opened Frames
  import opened StreamIntegrity
  import opened StreamMeaning
  import opened StreamFold
  import opened StreamWalk
  import opened StreamAccept

  // ----- indices

  /** An index is a whole number up to 65535; where none is given it is 0. */
  lemma IndexExactly(f: Field<real>, i: nat)
    ensures IndexOf(f) == Some(i) <==> (i == 0 && (f == Absent || f == Null)) || (i <= 65535 && f == Is(i as real))
  {
    assert (i as real).Floor == i;
  }

  // ----- what one more choice says

  /** The value a field carries, or nothing. */
  function Given(f: Field<string>): string {
    match f
    case Is(text) => text
    case _ => ""
  }

  /** What a choice adds: to its own index its text, reasoning, role and finish, where it gives them,
      and its fragments; to every other index nothing. */
  lemma MeaningGrows(cs: seq<Choice>, c: Choice, i: nat)
    requires c.Choice?
    ensures var mine, d := For(cs, i), if c.delta.Is? then c.delta.value else NO_DELTA;
      if IndexOf(c.index) != Some(i) then For(cs + [c], i) == mine
      else
        var more := For(cs + [c], i);
        && more == mine + [c]
        && Text(more) == Text(mine) + Given(d.content) && Reasoning(more) == Reasoning(mine) + Given(d.reasoning)
        && Role(more) == (if d.role.Is? then d.role.value else Role(mine))
        && FinishOf(more) == (if Given(c.finish) != "" then Given(c.finish) else FinishOf(mine))
        && CallsOf(more) == CallsOf(mine) + (if d.legacy.Is? && !NoLegacyCall(d.legacy)
                                             then [Call(Is(0.0), Absent, Is("function"), d.legacy)]
                                             else if d.calls.Is? then d.calls.value else [])
  {
    assert (cs + [c])[..|cs|] == cs;
    var mine := For(cs, i);
    assert (mine + [c])[..|mine|] == mine && mine + [] == mine;
  }

  /** What a fragment adds: to the call with its index its name and arguments, and its id and type if
      they are the first given; to every other call nothing. */
  lemma CallGrows(calls: seq<Call>, call: Call, t: nat)
    requires call.Call?
    ensures var mine := CallsAt(calls, t);
      if IndexOf(call.index) != Some(t) then CallsAt(calls + [call], t) == mine
      else
        var fn := if call.fn.Is? then call.fn.value else Function(Absent, Absent, false);
        var more := CallsAt(calls + [call], t);
        && more == mine + [call]
        && NameOf(more) == NameOf(mine) + Given(fn.name) && ArgsOf(more) == ArgsOf(mine) + Given(fn.arguments)
        && FirstId(more) == (if FirstId(mine) == "" then Given(call.id) else FirstId(mine))
        && FirstKind(more) == (if FirstKind(mine) == "" then Given(call.kind) else FirstKind(mine))
    ensures CallIndices(calls + [call])
      == CallIndices(calls) + if IndexOf(call.index).Some? then {IndexOf(call.index).value} else {}
  {
    assert (calls + [call])[..|calls|] == calls;
    var mine := CallsAt(calls, t);
    assert (mine + [call])[..|mine|] == mine && mine + [] == mine;
  }

  // ----- what is shown on the way

  predicate NoValue(f: Field<int>) {
    f == Absent || f == Null || f == Wrong(true)
  }

  /** What the client sees of a choice: its index, its text, role and other members, without padding,
      without calls and without a finish; nothing when nothing of that is left. */
  function Seen(c: Choice): seq<Choice>
    requires c.Choice?
  {
    if !c.delta.Is? then []
    else
      var d := c.delta.value;
      var shown := Delta(d.content, if NoText(d.reasoning) then Absent else d.reasoning, d.role, Absent, Absent,
                         if NoValue(d.extraFields) then Absent else d.extraFields,
                         if NoValue(d.refusal) then Absent else d.refusal, d.rest);
      if shown == Delta(Absent, Absent, Absent, Absent, Absent, Absent, Absent, map[]) then []
      else [Choice(c.index, Is(shown), Absent)]
  }

  function AllSeen(cs: seq<Choice>): seq<Choice>
    requires AllChoices(cs)
  {
    if cs == [] then [] else Seen(cs[0]) + AllSeen(cs[1..])
  }

  lemma SeenIsKept(c: Choice)
    requires c.Choice?
    ensures Kept(c) == Seen(c)
  {
  }

  lemma {:induction false} ChoicesSeen(s: State, seen: set<nat>, ds: seq<Choice>)
    requires FeedChoices(s, seen, ds).Ok?
    ensures AllChoices(ds) && CleanChoices(FeedChoices(s, seen, ds).value) == Success(AllSeen(ds))
    decreases |ds|
  {
    hide FeedChoice, Visible, IndexOf, CleanChoice, Seen, Kept;
    if ds != [] {
      ChoiceParts(s, seen, ds[0]);
      KeptIsVisible(ds[0]);
      SeenIsKept(ds[0]);
      var next := FeedChoice(s, seen, ds[0]);
      ChoicesSeen(next.state, next.value, ds[1..]);
      CleanAppend(Visible(ds[0]), FeedChoices(next.state, next.value, ds[1..]).value);
    }
  }

  /** An accepted frame is shown as it is when it only reports usage, otherwise with what is seen of
      its choices and everything else unchanged, and not at all when that is nothing. */
  lemma ShownExactly(s: State, f: Frame)
    requires Feed(s, f).Ok?
    ensures f.Frame? && (f.choices.Is? ==> AllChoices(f.choices.value))
    ensures Feed(s, f).value
      == if !f.choices.Is? then Some(f)
         else if AllSeen(f.choices.value) == [] && f.usage == Absent then None
         else Some(f.(choices := Is(AllSeen(f.choices.value))))
  {
    hide FeedChoices;
    if f.choices.Is? {
      var s0 := s.(frames := s.frames + 1);
      var fed := FeedChoices(s0, {}, f.choices.value);
      assert Feed(s, f) == ShowFed(f, fed);
      ChoicesSeen(s0, {}, f.choices.value);
      hide AllSeen, CleanChoices;
      ShowLive(fed.state, f, fed.value, AllSeen(f.choices.value));
    }
  }

  // ----- what is counted

  function TextSize(cs: seq<Choice>): nat {
    if cs == [] then 0
    else (if cs[0].Choice? && cs[0].delta.Is? then |Given(cs[0].delta.value.content)| else 0) + TextSize(cs[1..])
  }

  function ReasoningSize(cs: seq<Choice>): nat {
    if cs == [] then 0
    else (if cs[0].Choice? && cs[0].delta.Is? then |Given(cs[0].delta.value.reasoning)| else 0) + ReasoningSize(cs[1..])
  }

  lemma ToolsCountNothing(s: State, i: nat, calls: seq<Call>)
    requires i in s.choices
    ensures var r := FeedCalls(s, i, calls);
      r.state.frames == s.frames && r.state.textBytes == s.textBytes && r.state.reasoningBytes == s.reasoningBytes
    decreases |calls|
  {
    if calls != [] && FeedCall(s, i, calls[0]).Ok? {
      hide FeedCall;
      CallCountsNothing(s, i, calls[0]);
      ToolsCountNothing(FeedCall(s, i, calls[0]).state, i, calls[1..]);
    } else if calls != [] {
      CallCountsNothing(s, i, calls[0]);
      hide FeedCall;
    }
  }

  lemma CallCountsNothing(s: State, i: nat, call: Call)
    requires i in s.choices
    ensures var r := FeedCall(s, i, call);
      && r.state.frames == s.frames && r.state.textBytes == s.textBytes && r.state.reasoningBytes == s.reasoningBytes
      && r.state.choices.Keys == s.choices.Keys
  {
    hide CheckCall, Merge, IndexOf;
  }

  lemma ChoiceCounts(s: State, seen: set<nat>, c: Choice)
    requires FeedChoice(s, seen, c).Ok?
    ensures var r := FeedChoice(s, seen, c).state;
      && r.frames == s.frames && r.textBytes == s.textBytes + TextSize([c])
      && r.reasoningBytes == s.reasoningBytes + ReasoningSize([c])
  {
    var i := IndexOf(c.index).value;
    var d := DeltaOf(c.delta);
    var s2 := CountText(OpenChoice(s, i), d).state;
    match Normalized(d)
    case Success(calls) =>
      if calls.Is? { ToolsCountNothing(s2, i, calls.value); }
      hide FeedCalls, IndexOf;
    case _ =>
  }

  lemma {:induction false} ChoicesCount(s: State, seen: set<nat>, cs: seq<Choice>)
    requires FeedChoices(s, seen, cs).Ok?
    ensures var r := FeedChoices(s, seen, cs).state;
      && r.frames == s.frames && r.textBytes == s.textBytes + TextSize(cs)
      && r.reasoningBytes == s.reasoningBytes + ReasoningSize(cs)
    decreases |cs|
  {
    hide FeedChoice;
    if cs != [] {
      ChoiceCounts(s, seen, cs[0]);
      var next := FeedChoice(s, seen, cs[0]);
      ChoicesCount(next.state, next.value, cs[1..]);
      assert [cs[0]][1..] == [];
    }
  }

  /** Every accepted frame is counted once, with the bytes of its text and of its reasoning. */
  lemma FrameCounts(s: State, f: Frame)
    requires Feed(s, f).Ok?
    ensures var r, cs := Feed(s, f).state, ChoicesIn(f);
      && r.frames == s.frames + 1 && r.textBytes == s.textBytes + TextSize(cs)
      && r.reasoningBytes == s.reasoningBytes + ReasoningSize(cs)
    ensures INITIAL.frames == INITIAL.textBytes == INITIAL.reasoningBytes == 0
  {
    hide FeedChoices, Clean, ErrorObject, TextSize, ReasoningSize;
    NothingCounts();
    if f.choices.Is? { ChoicesCount(s.(frames := s.frames + 1), {}, f.choices.value); }
  }

  lemma NothingCounts()
    ensures TextSize([]) == 0 && ReasoningSize([]) == 0
  {
  }

  // ----- why a walk fails

  /** What is wrong with a stream, if anything: the frame refused first, else the line that ended the
      walk, else the failure to read, else what does not validate at the end. */
  ghost function Fault(env: Env, s: State, lines: seq<Line>, readFails: bool): Option<WalkError> {
    var fed := FeedAll(s, FramesOf(lines));
    if fed.Fail? then Some(Broken(fed.reason))
    else if StopOf(lines).Some? then StopOf(lines)
    else if readFails then Some(Broken(ReadFailure))
    else if End(env, fed.state).Failure? then Some(Broken(End(env, fed.state).error))
    else None
  }

  /** A walk reports exactly that. */
  lemma {:induction false} WalkReports(env: Env, s: State, lines: seq<Line>, readFails: bool)
    ensures ErrorOf(WalkFrom(env, s, lines, readFails)) == Fault(env, s, lines, readFails)
    decreases |lines|
  {
    hide Feed, End;
    if lines != [] {
      match lines[0] {
        case Skip => WalkReports(env, s, lines[1..], readFails);
        case Body(f) =>
          var rest := FramesOf(lines[1..]);
          assert ([f] + rest)[0] == f && ([f] + rest)[1..] == rest;
          if Feed(s, f).Ok? { WalkReports(env, Feed(s, f).state, lines[1..], readFails); }
        case _ =>
      }
    }
  }

  predicate StopsWith(line: Line, error: WalkError) {
    (line.BadLine? && error == Broken(line.reason)) || (line.Refused? && error == Refusal(line.status))
  }

  /** The line that ended the walk is the first that is malformed, a refusal or the end marker; only
      the end marker ends it well. */
  lemma {:induction false} StopExactly(lines: seq<Line>, k: nat)
    requires k < |lines| && forall j | 0 <= j < k :: lines[j].Skip? || lines[j].Body?
    requires !lines[k].Skip? && !lines[k].Body?
    ensures if lines[k] == Done then StopOf(lines) == None
            else StopOf(lines).Some? && StopsWith(lines[k], StopOf(lines).value)
  {
    if k > 0 {
      StopExactly(lines[1..], k - 1);
    }
  }

  // ----- the calls of a choice

  /** These calls say what the fragments said: one call for each tool index addressed, in ascending
      order, with the first id given, or a generated one, and all of the name and of the arguments. */
  ghost predicate CallsSay(env: Env, i: nat, fragments: seq<Call>, calls: seq<Call>) {
    var order := Ascending(CallIndices(fragments));
    && |calls| == |order|
    && forall k | 0 <= k < |calls| ::
         var mine := CallsAt(fragments, order[k]);
         var id := if FirstId(mine) != "" then FirstId(mine)
                   else "call_qoder_" + env.nonce + "_" + Digits(i) + "_" + Digits(order[k]);
         calls[k] == Call(Is(order[k] as real), Is(id), Is("function"),
                          Is(Function(Is(NameOf(mine)), Is(ArgsOf(mine)), false)))
  }

  lemma {:induction false} CallsMeantSay(env: Env, i: nat, fragments: seq<Call>, order: seq<nat>, k: nat)
    requires k < |order|
    ensures |CallsMeant(env, i, fragments, order)| == |order|
    ensures var mine := CallsAt(fragments, order[k]);
      var id := if FirstId(mine) != "" then FirstId(mine)
                else "call_qoder_" + env.nonce + "_" + Digits(i) + "_" + Digits(order[k]);
      CallsMeant(env, i, fragments, order)[k]
      == Call(Is(order[k] as real), Is(id), Is("function"), Is(Function(Is(NameOf(mine)), Is(ArgsOf(mine)), false)))
    decreases |order|
  {
    hide CallsAt, FirstId, NameOf, ArgsOf, Digits;
    if |order| > 1 {
      CallsMeantSay(env, i, fragments, order[1..], if k == 0 then 0 else k - 1);
    }
  }

  lemma MeantCallsSay(env: Env, i: nat, fragments: seq<Call>)
    ensures CallsSay(env, i, fragments, CallsMeant(env, i, fragments, Ascending(CallIndices(fragments))))
  {
    hide CallsMeant, Ascending, CallIndices;
    var order := Ascending(CallIndices(fragments));
    if order == [] {
      assert CallsMeant(env, i, fragments, order) == [] by { NoCallsMeant(env, i, fragments); }
    } else {
      forall k | 0 <= k < |order| { CallsMeantSay(env, i, fragments, order, k); }
    }
  }

  lemma NoCallsMeant(env: Env, i: nat, fragments: seq<Call>)
    ensures CallsMeant(env, i, fragments, []) == []
  {
  }

  // ----- the finish reasons

  ghost predicate FinishesOk(cs: seq<Choice>) {
    forall c | c in cs :: c.Choice? && FinishOk(c.finish)
  }

  lemma {:induction false} AdmittedFinishes(cs: seq<Choice>, seen: set<nat>, ds: seq<Choice>)
    requires AllAdmissible(cs, seen, ds)
    ensures FinishesOk(ds)
    decreases |ds|
  {
    hide FinishOk, IndexOf;
    if ds != [] {
      AdmittedFinishes(cs + [ds[0]], seen + {IndexOf(ds[0].index).value}, ds[1..]);
    }
  }

  lemma {:induction false} StreamFinishes(cs: seq<Choice>, fs: seq<Frame>)
    requires FramesAdmissible(cs, fs)
    ensures FinishesOk(ChoicesOf(fs))
    decreases |fs|
  {
    hide FinishOk, AllAdmissible, ChoicesIn, FrameOk;
    if fs != [] {
      AdmittedFinishes(cs, {}, ChoicesIn(fs[0]));
      StreamFinishes(cs + ChoicesIn(fs[0]), fs[1..]);
      ChoicesOfCons(fs[0], fs[1..]);
      assert [fs[0]] + fs[1..] == fs;
    }
  }

  lemma {:induction false} FinishIsKnown(cs: seq<Choice>, i: nat)
    requires FinishesOk(cs)
    ensures FinishOf(For(cs, i)) in ["", "stop", "tool_calls", "function_call", "length", "content_filter"]
  {
    hide IndexOf;
    if cs != [] {
      var c := cs[|cs| - 1];
      FinishIsKnown(cs[..|cs| - 1], i);
      var before := For(cs[..|cs| - 1], i);
      assert c in cs && FinishOk(c.finish);
      LastFinish(before, c);
      assert before + [] == before;
    }
  }

  lemma LastFinish(before: seq<Choice>, c: Choice)
    requires c.Choice?
    ensures FinishOf(before + [c]) == if Str(c.finish) != "" then Str(c.finish) else FinishOf(before)
  {
    assert (before + [c])[..|before|] == before;
  }

  /** What an accepted stream says of one of its choices: text, reasoning and role, one of the five
      finish reasons, and its calls unless it was cut short. */
  ghost predicate Says(env: Env, i: nat, mine: seq<Choice>, finish: string, calls: seq<Call>) {
    && finish == FinishOf(mine) && finish in ["stop", "tool_calls", "function_call", "length", "content_filter"]
    && (if finish == "length" || finish == "content_filter" then calls == []
        else CallsSay(env, i, CallsOf(mine), calls))
    && (finish == "tool_calls" || finish == "function_call" ==> calls != [])
  }

  /** Every choice of an accepted stream says something. */
  lemma AcceptedSays(env: Env, fs: seq<Frame>, i: nat)
    requires Accepted(env, fs) && i in Indices(ChoicesOf(fs))
    ensures var mine := For(ChoicesOf(fs), i);
      Says(env, i, mine, FinishOf(mine), ChoiceMeant(env, i, mine).tools)
  {
    var cs := ChoicesOf(fs);
    var mine := For(cs, i);
    StartRepresents();
    FramesAccept(INITIAL, [], fs);
    EngineIndices(fs);
    hide FeedAll, FramesAdmissible, ChoicesOf, For, Indices, CallsMeant, CallsSay, FinishesOk, Represents, End;
    StreamFinishes([], fs);
    FinishIsKnown(cs, i);
    EndAccepts(env, FeedAll(INITIAL, fs).state);
    MeantCallsSay(env, i, CallsOf(mine));
    EndedSays(env, i, mine);
  }

  lemma EndedSays(env: Env, i: nat, mine: seq<Choice>)
    requires ChoiceOk(env, i, StateOf(mine))
    requires var said := CallsOf(mine);
      CallsSay(env, i, said, CallsMeant(env, i, said, Ascending(CallIndices(said))))
    requires FinishOf(mine) in ["", "stop", "tool_calls", "function_call", "length", "content_filter"]
    ensures Says(env, i, mine, FinishOf(mine), ChoiceMeant(env, i, mine).tools)
  {
    hide CallsMeant, CallsSay, ToolOk, CallIndices, BufferOf, Ascending;
    var said := CallsOf(mine);
    var calls := CallsMeant(env, i, said, Ascending(CallIndices(said)));
    SomeCalls(env, i, said, calls);
    assert StateOf(mine).tools != map[] ==> BuffersOf(said).Keys != {};
  }

  lemma SomeCalls(env: Env, i: nat, said: seq<Call>, calls: seq<Call>)
    requires CallsSay(env, i, said, calls)
    ensures BuffersOf(said).Keys != {} ==> calls != []
  {
    hide CallsAt, CallIndices;
    assert BuffersOf(said).Keys == CallIndices(said);
  }

  // ----- the terminals and the completion

  lemma {:induction false} TerminalsAre(env: Env, choices: map<nat, ChoiceState>, cs: seq<Choice>, order: seq<nat>,
                                        ids: set<string>, k: nat)
    requires Tracks(choices, cs) && forall i | i in order :: i in choices
    requires EndChoices(env, choices, order, ids).Success? && k < |order|
    ensures var mine := For(cs, order[k]);
      && |EndChoices(env, choices, order, ids).value| == |order|
      && EndChoices(env, choices, order, ids).value[k]
         == Terminal(order[k], FinishOf(mine), ChoiceMeant(env, order[k], mine).tools)
    decreases |order|
  {
    hide For, ChoiceMeant, EndChoice, Terminal, FinishOf, CallsOf;
    EndChoiceMeant(env, order[0], For(cs, order[0]), ids);
    if |order| > 1 {
      var next := EndChoice(env, order[0], choices[order[0]], ids).value.1;
      TerminalsAre(env, choices, cs, order[1..], next, if k == 0 then 0 else k - 1);
    }
  }

  /** A terminal carries nothing but the index of its choice, its finish and its calls. */
  ghost predicate TerminalSays(env: Env, i: nat, mine: seq<Choice>, terminal: Frame) {
    exists finish, calls ::
      && Says(env, i, mine, finish, calls)
      && terminal == Frame(Absent, Absent, Absent, Absent, Is([Choice(
           Is(i as real),
           Is(Delta(Absent, Absent, Absent, Absent, if calls == [] then Absent else Is(calls), Absent, Absent, map[])),
           Is(finish))]))
  }

  lemma TerminalSaysIt(env: Env, i: nat, mine: seq<Choice>, finish: string, calls: seq<Call>)
    requires Says(env, i, mine, finish, calls)
    ensures TerminalSays(env, i, mine, Terminal(i, finish, calls))
  {
    hide Says;
  }

  /** The terminals of an accepted stream: one for each choice, in ascending order. */
  lemma TerminalsExactly(env: Env, fs: seq<Frame>)
    requires Accepted(env, fs)
    ensures var order, terminals := Ascending(Indices(ChoicesOf(fs))), End(env, FeedAll(INITIAL, fs).state).value;
      && |terminals| == |order|
      && forall k | 0 <= k < |order| :: TerminalSays(env, order[k], For(ChoicesOf(fs), order[k]), terminals[k])
  {
    var cs, s := ChoicesOf(fs), FeedAll(INITIAL, fs).state;
    EngineIndices(fs);
    var order := Ascending(Indices(cs));
    assert End(env, s) == EndChoices(env, s.choices, order, {}) && order != [];
    hide *;
    forall k | 0 <= k < |order|
      ensures |End(env, s).value| == |order|
      ensures TerminalSays(env, order[k], For(cs, order[k]), End(env, s).value[k])
    {
      TerminalsAre(env, s.choices, cs, order, {}, k);
      assert order[k] in order;
      AcceptedSays(env, fs, order[k]);
      var mine := For(cs, order[k]);
      TerminalSaysIt(env, order[k], mine, FinishOf(mine), ChoiceMeant(env, order[k], mine).tools);
    }
  }

  lemma {:induction false} ChoicesMeantAre(env: Env, cs: seq<Choice>, order: seq<nat>, k: nat)
    requires k < |order|
    ensures |ChoicesMeant(env, cs, order)| == |order|
    ensures ChoicesMeant(env, cs, order)[k] == (order[k], ChoiceMeant(env, order[k], For(cs, order[k])))
    decreases |order|
  {
    hide ChoiceMeant, For;
    if |order| > 1 {
      ChoicesMeantAre(env, cs, order[1..], if k == 0 then 0 else k - 1);
    }
  }

  /** Main theorem: the fold of an accepted stream has one entry for each choice, in ascending order,
      with all of its text and reasoning, its last role, and what it says: one of the five finish
      reasons, and its calls exactly unless the finish is "length" or "content_filter". */
  lemma CompletionExactly(env: Env, fs: seq<Frame>)
    requires Accepted(env, fs)
    ensures AllFoldable(EmittedBy(env, fs))
    ensures var order, out := Ascending(Indices(ChoicesOf(fs))), Aggregate(EmittedBy(env, fs)).0;
      && |out| == |order|
      && forall k | 0 <= k < |order| ::
           var mine, f := For(ChoicesOf(fs), order[k]), out[k].1;
           && out[k].0 == order[k] && Says(env, order[k], mine, f.finish, f.tools)
           && f.content == Text(mine) && f.reasoning == Reasoning(mine) && f.role == Role(mine)
  {
    FoldRefinement(env, fs);
    var cs := ChoicesOf(fs);
    var order := Ascending(Indices(cs));
    hide FeedAll, ChoicesOf, For, Indices, Says, Ascending, Aggregate, Accepted, ChoicesMeant;
    if order == [] {
      assert ChoicesMeant(env, cs, order) == [] by { NoChoicesMeant(env, cs); }
    }
    forall k | 0 <= k < |order|
      ensures |ChoicesMeant(env, cs, order)| == |order|
      ensures var mine := For(cs, order[k]);
        && Says(env, order[k], mine, FinishOf(mine), ChoiceMeant(env, order[k], mine).tools)
        && ChoicesMeant(env, cs, order)[k] == (order[k], ChoiceMeant(env, order[k], mine))
    {
      ChoicesMeantAre(env, cs, order, k);
      assert order[k] in order;
      AcceptedSays(env, fs, order[k]);
    }
  }

  lemma NoChoicesMeant(env: Env, cs: seq<Choice>)
    ensures ChoicesMeant(env, cs, []) == []
  {
  }
}
