/** Every interleaving of manual, automatic and retried check-ins with cancellation, switching
    off, day changes and evictions. Locked sections are atomic steps; the per-account lock lets
    at most one run of an account be in progress; the upstream answers as it likes. */
module CheckinProtocol {
  import opened Collections
  import opened CheckinAttempt
  import opened CheckinRuns

  /** Where a run of one account is: admitted, attempted, or having read the auto switch. */
  datatype Phase =
    | Running(before: Record)
    | Attempted(before: Record, c: Conclusion)
    | Deciding(before: Record, c: Conclusion, enabled: bool)

  /** What happened upstream and to the retry budget, oldest first: a POST for a claim, a
      confirming read that found a claim, an admitted retry. */
  datatype Event =
    | Posted(index: string, target: Target, settled: bool, holdable: bool)
    | Found(index: string, target: Target)
    | RetryAdmitted(index: string, day: int)

  /** quiet: auto check-in is off and its cancellation of all schedules has been done. */
  datatype World = World(records: Table, auto: bool, runs: map<string, Phase>, today: int, quiet: bool, log: seq<Event>)

  datatype Step =
    | Admit(index: string, id: string, source: Source, now: int, victim: Option<string>)
    | Try(index: string, u: Upstream)
    | Abandon(index: string, c: Conclusion)
    | ReadAuto(index: string)
    | Conclude(index: string, now: int)
    | CancelOne(index: string)
    | CancelEvery
    | SetAuto(on: bool)
    | ScanDue(now: int)

  ghost function Start(today: int): World {
    World(map[], true, map[], today, false, [])
  }

  function PreviousOf(r: Record): Previous {
    Previous(r.confirmOnly, r.confirmed, r.legacy, r.campaignId)
  }

  /** A run that ends without an upstream call: the account list or the credential could not
      be read, the account is disabled, or its region has no check-in. */
  predicate Abandoned(before: Record, c: Conclusion) {
    !c.confirmed && c.campaignId == "" && !c.hasStatus && (c.confirmOnly ==> before.confirmOnly)
  }

  ghost predicate Enabled(cal: Calendar, w: World, step: Step) {
    match step
    case Admit(i, _, _, now, victim) =>
      i !in w.runs && !Blank(i) && w.today <= cal(now) && Displaces(w.records, i, cal(now), victim)
    case Try(i, u) =>
      && i in w.runs && w.runs[i].Running?
      && w.runs[i].before.day.Some? && w.runs[i].before.day.value <= u.posted <= u.ended && w.today <= u.ended
    case Abandon(i, c) => i in w.runs && w.runs[i].Running? && Abandoned(w.runs[i].before, c)
    case ReadAuto(i) => i in w.runs && w.runs[i].Attempted?
    case Conclude(i, _) => i in w.runs && w.runs[i].Deciding?
    case _ => true
  }

  /** The contract and campaign a record names: those of its uncertain POST, if it is read-only. */
  function Names(r: Record): Contract {
    ContractNamed(r.legacy, r.campaignId)
  }

  /** Whether the record can keep hold of the claim of an open POST: the reply was no interim
      status, and for the legacy contract the record already names it or the confirming read
      came through. */
  predicate Holdable(before: Record, u: Upstream, post: Post) {
    !Informational(post.reply) && (post.target.OfDay? ==> before.legacy || Read(u.confirmLegacy).Success?)
  }

  ghost function PostEvents(i: string, before: Record, u: Upstream, a: Attempt): seq<Event> {
    if a.post.Some? then
      [Posted(i, a.post.value.target, Settled(a.post.value), Holdable(before, u, a.post.value))]
    else []
  }

  ghost function ReadEvents(i: string, u: Upstream, a: Attempt): seq<Event> {
    if a.read.Some? && ReadFinds(u, a.read.value) then [Found(i, a.read.value)] else []
  }

  ghost function Events(i: string, before: Record, u: Upstream): seq<Event> {
    var a := Run(PreviousOf(before), u);
    PostEvents(i, before, u, a) + ReadEvents(i, u, a)
  }

  ghost function Next(cal: Calendar, w: World, step: Step): World
    requires Enabled(cal, w, step)
  {
    match step
    case Admit(i, id, source, now, victim) =>
      var a := Reserve(w.records, i, id, source, now, cal(now), victim);
      w.(records := a.table, today := cal(now),
         runs := if a.admitted then w.runs[i := Running(a.record)] else w.runs,
         log := if a.admitted && source == Retry then w.log + [RetryAdmitted(i, cal(now))] else w.log)
    case Try(i, u) =>
      var before := w.runs[i].before;
      var a := Run(PreviousOf(before), u);
      w.(runs := w.runs[i := Attempted(before, a.conclusion)], today := u.ended, log := w.log + Events(i, before, u))
    case Abandon(i, c) => w.(runs := w.runs[i := Attempted(w.runs[i].before, c)])
    case ReadAuto(i) => w.(runs := w.runs[i := Deciding(w.runs[i].before, w.runs[i].c, w.auto)])
    case Conclude(i, now) =>
      var p := w.runs[i];
      w.(records := Finish(w.records, i, p.before, p.c, now, p.enabled, cal), runs := w.runs - {i})
    case CancelOne(i) => w.(records := Cancel(w.records, i))
    case CancelEvery => w.(records := CancelAll(w.records), quiet := !w.auto)
    case SetAuto(on) => w.(auto := on, quiet := w.quiet && !on)
    case ScanDue(now) => w.(records := Sweep(w.records, cal(now)))
  }

  ghost predicate Legal(cal: Calendar, w: World, steps: seq<Step>)
    decreases |steps|
  {
    steps == [] || (Enabled(cal, w, steps[0]) && Legal(cal, Next(cal, w, steps[0]), steps[1..]))
  }

  ghost function Play(cal: Calendar, w: World, steps: seq<Step>): World
    requires Legal(cal, w, steps)
    decreases |steps|
  {
    if steps == [] then w else Play(cal, Next(cal, w, steps[0]), steps[1..])
  }

  // ----- the table and the runs in progress

  ghost predicate SameBut(r: Record, before: Record) {
    r == before.(next := r.next, generation := r.generation) && r.generation >= before.generation
  }

  ghost predicate RecordOk(cal: Calendar, today: int, r: Record) {
    && r.day.Some? && r.day.value <= today
    && r.retries <= |RETRY_DELAYS|
    && (r.next.Some? ==> r.day == Some(cal(r.next.value)) && r.retries < |RETRY_DELAYS|)
  }

  /** The table is bounded, its records are well formed, and a run in progress still has its
      in-flight record, changed at most by a cancellation or a day change. */
  ghost predicate TableOk(cal: Calendar, w: World) {
    && |w.records| <= RUN_LIMIT
    && (forall i | i in w.records :: RecordOk(cal, w.today, w.records[i]))
    && (forall i | i in w.runs :: i in w.records && w.records[i].inFlight && SameBut(w.records[i], w.runs[i].before))
  }

  /** What an admission does to the table as a whole. */
  ghost predicate TableAdmits(t: Table, index: string, today: int, a: Admission) {
    && (a.admitted ==> index in a.table && a.table[index] == a.record)
    && (forall k | k in a.table && k != index :: k in t && a.table[k] == t[k])
    && (!a.admitted && index in a.table ==> index in t && a.table[index] == t[index])
    && (forall k | k in t && k !in a.table :: k != index && Evictable(t[k], today))
    && (|t| <= RUN_LIMIT ==> |a.table| <= RUN_LIMIT)
  }

  /** What making room leaves of the table. */
  ghost predicate RoomLeft(t: Table, index: string, today: int, room: Table) {
    && (forall k | k in room :: k in t && room[k] == t[k])
    && (forall k | k in t && k !in room :: k != index && Evictable(t[k], today))
    && (index in room <==> index in t)
    && |room| <= |t| && (|t| <= RUN_LIMIT && index !in t ==> |room| < RUN_LIMIT)
  }

  lemma AdmissionParts(t: Table, index: string, id: string, source: Source, now: int, today: int,
          victim: Option<string>)
    requires !Blank(index) && Displaces(t, index, today, victim)
    ensures TableAdmits(t, index, today, Reserve(t, index, id, source, now, today, victim))
    ensures var a := Reserve(t, index, id, source, now, today, victim);
      a.admitted ==>
        && a.record == Taken(ForDay(AtIndex(t, index), today), id, source, now)
        && !Refused(ForDay(AtIndex(t, index), today), source, now)
  {
    hide Displaces, Evictable, ForDay, Taken, Refused, Blank, Room, TableAdmits, RoomLeft;
    if !(index !in t && |t| >= RUN_LIMIT && victim.None?) {
      RoomParts(t, index, today, victim);
      var room := Room(t, index, victim);
      var r := ForDay(AtIndex(t, index), today);
      RefusedParts(t, index, today, room, r);
      TakenParts(t, index, today, room, Taken(r, id, source, now));
    } else {
      FullParts(t, index, today);
    }
  }

  lemma FullParts(t: Table, index: string, today: int)
    ensures TableAdmits(t, index, today, Admission(t, ZERO, false))
  {
  }

  lemma RefusedParts(t: Table, index: string, today: int, room: Table, r: Record)
    requires RoomLeft(t, index, today, room)
    ensures TableAdmits(t, index, today, Admission(room, r, false))
  {
    hide Evictable;
  }

  lemma TakenParts(t: Table, index: string, today: int, room: Table, r: Record)
    requires RoomLeft(t, index, today, room)
    ensures TableAdmits(t, index, today, Admission(room[index := r], r, true))
  {
    hide Evictable;
    PutSize(room, index, r);
  }

  lemma PutSize(t: Table, k: string, r: Record)
    ensures |t[k := r]| == |t| + if k in t then 0 else 1
  {
    assert t[k := r].Keys == t.Keys + {k};
  }

  lemma RoomParts(t: Table, index: string, today: int, victim: Option<string>)
    requires Displaces(t, index, today, victim) && !(index !in t && |t| >= RUN_LIMIT && victim.None?)
    ensures RoomLeft(t, index, today, Room(t, index, victim))
  {
    hide Evictable;
    if index !in t && victim.Some? {
      var room := Room(t, index, victim);
      assert room.Keys == t.Keys - {victim.value};
      assert |room.Keys| == |t.Keys| - 1;
    }
  }

  /** What an admission makes of the world. */
  ghost predicate Admits(cal: Calendar, w: World, step: Step, after: World)
    requires step.Admit?
  {
    var a := Reserve(w.records, step.index, step.id, step.source, step.now, cal(step.now), step.victim);
    && after.records == a.table && after.today == cal(step.now) && after.auto == w.auto && after.quiet == w.quiet
    && after.runs == (if a.admitted then w.runs[step.index := Running(a.record)] else w.runs)
    && after.log == (if a.admitted && step.source == Retry then
                       w.log + [RetryAdmitted(step.index, cal(step.now))]
                     else w.log)
    && TableAdmits(w.records, step.index, cal(step.now), a)
    && (a.admitted ==>
          && a.record == Taken(ForDay(AtIndex(w.records, step.index), cal(step.now)), step.id, step.source, step.now)
          && !Refused(ForDay(AtIndex(w.records, step.index), cal(step.now)), step.source, step.now))
  }

  lemma AdmitNext(cal: Calendar, w: World, step: Step)
    requires Enabled(cal, w, step) && step.Admit?
    ensures Admits(cal, w, step, Next(cal, w, step))
    ensures step.index !in w.runs && w.today <= cal(step.now) == Next(cal, w, step).today
  {
    hide Reserve, Displaces, TableAdmits, Taken, ForDay, Refused, Run, Finish, Events, Blank, Sweep, Cancel, CancelAll;
    assert !Blank(step.index) && Displaces(w.records, step.index, cal(step.now), step.victim);
    AdmissionParts(w.records, step.index, step.id, step.source, step.now, cal(step.now), step.victim);
  }

  lemma AdmitKeepsTable(cal: Calendar, w: World, step: Step)
    requires TableOk(cal, w) && Enabled(cal, w, step) && step.Admit?
    ensures TableOk(cal, Next(cal, w, step))
  {
    hide *;
    AdmitNext(cal, w, step);
    AdmitKeepsRecords(cal, w, step, Next(cal, w, step));
    AdmitKeepsRuns(cal, w, step, Next(cal, w, step));
    TableOkParts(cal, Next(cal, w, step));
  }

  lemma TableOkParts(cal: Calendar, w: World)
    requires |w.records| <= RUN_LIMIT && forall i | i in w.records :: RecordOk(cal, w.today, w.records[i])
    requires forall i | i in w.runs ::
      i in w.records && w.records[i].inFlight && SameBut(w.records[i], w.runs[i].before)
    ensures TableOk(cal, w)
  {
  }

  lemma AdmitKeepsRecords(cal: Calendar, w: World, step: Step, after: World)
    requires TableOk(cal, w) && step.Admit? && Admits(cal, w, step, after) && w.today <= after.today
    ensures |after.records| <= RUN_LIMIT
    ensures forall i | i in after.records :: RecordOk(cal, after.today, after.records[i])
  {
    AdmittedOk(cal, w, step);
    RecordsAge(cal, w, cal(step.now));
    hide Reserve, Evictable, Taken, Refused, ForDay, RecordOk;
  }

  lemma AdmitKeepsRuns(cal: Calendar, w: World, step: Step, after: World)
    requires TableOk(cal, w) && step.Admit? && Admits(cal, w, step, after) && step.index !in w.runs
    ensures forall i | i in after.runs ::
      i in after.records && after.records[i].inFlight && SameBut(after.records[i], after.runs[i].before)
  {
    hide Reserve, Evictable, Taken, Refused, ForDay, RecordOk;
    AdmittedInFlight(ForDay(AtIndex(w.records, step.index), cal(step.now)), step.id, step.source, step.now);
    forall k | k in w.runs
      ensures k in after.records && after.records[k] == w.records[k] && after.runs[k] == w.runs[k]
    {
      if k !in after.records { StillInFlight(w.records[k], cal(step.now)); }
    }
  }

  /** A run in progress is not touched by another account's admission. */
  lemma AdmitKeepsRun(cal: Calendar, w: World, step: Step, i: string)
    requires TableOk(cal, w) && Enabled(cal, w, step) && step.Admit? && i in w.runs
    ensures var after := Next(cal, w, step);
      && i in after.records && after.records[i] == w.records[i]
      && i in after.runs && after.runs[i] == w.runs[i]
  {
    AdmitNext(cal, w, step);
    hide Next, Enabled, Reserve, RecordOk, Evictable;
    if i !in Next(cal, w, step).records { StillInFlight(w.records[i], cal(step.now)); }
  }

  lemma AdmittedInFlight(r: Record, id: string, source: Source, now: int)
    ensures Taken(r, id, source, now).inFlight
  {
  }

  lemma RecordsAge(cal: Calendar, w: World, today: int)
    requires TableOk(cal, w) && w.today <= today
    ensures forall i | i in w.records :: RecordOk(cal, today, w.records[i])
  {
  }

  lemma StillInFlight(r: Record, today: int)
    requires r.inFlight
    ensures !Evictable(r, today)
  {
  }

  lemma AdmittedOk(cal: Calendar, w: World, step: Step)
    requires TableOk(cal, w) && step.Admit? && w.today <= cal(step.now)
    ensures var r := ForDay(AtIndex(w.records, step.index), cal(step.now));
      !Refused(r, step.source, step.now) ==> RecordOk(cal, cal(step.now), Taken(r, step.id, step.source, step.now))
  {
  }

  lemma SameKeysSameSize(t: Table, u: Table)
    requires t.Keys == u.Keys
    ensures |t| == |u|
  {
    assert |t.Keys| == |u.Keys|;
  }

  lemma ConcludeKeepsTable(cal: Calendar, w: World, i: string, now: int)
    requires TableOk(cal, w) && i in w.runs && w.runs[i].Deciding?
    ensures TableOk(cal, Next(cal, w, Conclude(i, now)))
  {
    var after := Next(cal, w, Conclude(i, now));
    SameKeysSameSize(after.records, w.records);
    var p := w.runs[i];
    assert RecordOk(cal, w.today, Outcome(w.records[i], p.before, p.c, now, p.enabled, cal)) by {
      assert RecordOk(cal, w.today, w.records[i]);
    }
    hide Outcome, RecordOk, SameBut;
  }

  /** A record changed at most by a cancellation or by losing its schedule. */
  ghost predicate Softened(r: Record, after: Record) {
    && SameBut(after, r)
    && (after.next.Some? ==> after.next == r.next)
  }

  /** What every step but admissions and conclusions leaves of the table and the runs. */
  ghost predicate Softens(w: World, after: World) {
    && w.today <= after.today && after.records.Keys == w.records.Keys && after.runs.Keys == w.runs.Keys
    && (forall i | i in w.records :: Softened(w.records[i], after.records[i]))
    && (forall i | i in w.runs :: after.runs[i].before == w.runs[i].before)
  }

  lemma RestSoftens(cal: Calendar, w: World, step: Step)
    requires Enabled(cal, w, step) && !step.Admit? && !step.Conclude?
    ensures Softens(w, Next(cal, w, step))
  {
    hide Run, Settled, Events, Abandoned, Displaces, Blank, Reserve, Finish;
  }

  lemma SoftKeepsTable(cal: Calendar, w: World, after: World)
    requires TableOk(cal, w) && Softens(w, after)
    ensures TableOk(cal, after)
  {
    SameKeysSameSize(after.records, w.records);
  }

  lemma KeepsTable(cal: Calendar, w: World, step: Step)
    requires TableOk(cal, w) && Enabled(cal, w, step)
    ensures TableOk(cal, Next(cal, w, step))
  {
    if step.Admit? {
      AdmitKeepsTable(cal, w, step);
    } else if step.Conclude? {
      ConcludeKeepsTable(cal, w, step.index, step.now);
    } else {
      RestSoftens(cal, w, step);
      hide Next, Softens, TableOk, Enabled;
      SoftKeepsTable(cal, w, Next(cal, w, step));
    }
    hide *;
  }

  /** A record is only ever dropped by another account's admission to a full table: never an
      in-flight record, an uncertain POST, or today's spent or pending retry budget. */
  lemma EvictionIsSafe(cal: Calendar, w: World, step: Step, k: string)
    requires Enabled(cal, w, step) && k in w.records && k !in Next(cal, w, step).records
    ensures step.Admit? && k != step.index && step.victim == Some(k) && |w.records| >= 512
    ensures MayGo(w.records[k], cal(step.now))
    ensures forall j | j in w.records && MayGo(w.records[j], cal(step.now)) :: w.records[k].at <= w.records[j].at
  {
    if step.Admit? {
      VictimExactly(w.records, step.index, cal(step.now), step.victim);
      hide Evictable, MayGo, Displaces, Taken, Refused, ForDay;
    }
    hide Run, Evictable, MayGo, Displaces;
  }

  // ----- which claim a record holds on to

  /** What the record names after a run with that conclusion. */
  function NamesNext(before: Record, c: Conclusion): Contract {
    ContractNamed(NextLegacy(before, c), NextCampaign(before, c))
  }

  /** An open POST, neither settled nor confirmed, leaves a read-only record that names its
      contract and campaign exactly when it is holdable. */
  lemma HeldExactly(before: Record, u: Upstream)
    requires var a := Run(PreviousOf(before), u);
      a.post.Some? && !Settled(a.post.value) && !a.conclusion.confirmed
    ensures var a := Run(PreviousOf(before), u);
      NextConfirmOnly(before, a.conclusion) && NamesNext(before, a.conclusion) == ContractOf(a.post.value.target)
      <==> Holdable(before, u, a.post.value)
  {
    UncertainExactly(PreviousOf(before), u);
    if !Informational(Run(PreviousOf(before), u).post.value.reply) { PostNames(before, u); }
    hide Run, Settled, Informational, NamesNext, Read;
  }

  /** For a POST kept read-only: the record names its contract and campaign exactly when it is a campaign's, the
      record named the legacy contract before, or the confirming read came through. */
  lemma PostNames(before: Record, u: Upstream)
    requires var a := Run(PreviousOf(before), u);
      a.post.Some? && !Settled(a.post.value) && !a.conclusion.confirmed && !Informational(a.post.value.reply)
    ensures var a := Run(PreviousOf(before), u);
      NamesNext(before, a.conclusion) == ContractOf(a.post.value.target)
      <==> (a.post.value.target.OfDay? ==> before.legacy || Read(u.confirmLegacy).Success?)
  {
    hide Read, FirstOpen;
  }

  /** A read-only run leaves the record naming the same contract and campaign, and is confirmed
      exactly when its read finds a claim under them. */
  lemma ReadOnlyRunNames(before: Record, u: Upstream)
    requires before.confirmOnly
    ensures var a := Run(PreviousOf(before), u);
      && a.post.None? && a.read == Some(TargetOn(Names(before), u.ended))
      && (a.conclusion.confirmed <==> ReadFinds(u, TargetOn(Names(before), u.ended)))
      && (!a.conclusion.confirmed ==>
            NextConfirmOnly(before, a.conclusion) && NamesNext(before, a.conclusion) == Names(before))
  {
    hide Read, FirstOpen;
  }

  // ----- no blind re-POST

  /** The claim whose holdable POST is still open: the last POST is not settled by its reply and
      no read has found a claim under its contract and campaign since. */
  ghost function OpenClaim(log: seq<Event>, i: string): Option<Target> {
    if log == [] then None
    else
      var before, last := OpenClaim(log[..|log| - 1], i), log[|log| - 1];
      if last.Posted? && last.index == i then (if !last.settled && last.holdable then Some(last.target) else None)
      else if last.Found? && last.index == i && Closes(before, last.target) then None
      else before
  }

  ghost predicate Closes(open: Option<Target>, found: Target) {
    open.Some? && ContractOf(open.value) == ContractOf(found)
  }

  ghost predicate NoBlind(log: seq<Event>) {
    log == [] || (NoBlind(log[..|log| - 1])
                  && var last := log[|log| - 1]; last.Posted? ==> OpenClaim(log[..|log| - 1], last.index).None?)
  }

  ghost predicate Holds(p: Phase, t: Target) {
    if p.Running? then p.before.confirmOnly && Names(p.before) == ContractOf(t)
    else NextConfirmOnly(p.before, p.c) && NamesNext(p.before, p.c) == ContractOf(t)
  }

  /** An account with an open claim is read-only and names that claim's contract and campaign, in
      its record or in its run. */
  ghost predicate ClaimsOk(w: World) {
    && NoBlind(w.log)
    && forall i | OpenClaim(w.log, i).Some? ::
         i in w.records
         && if i in w.runs then Holds(w.runs[i], OpenClaim(w.log, i).value)
            else w.records[i].confirmOnly && Names(w.records[i]) == ContractOf(OpenClaim(w.log, i).value)
  }

  lemma OpenSnoc(log: seq<Event>, e: Event)
    ensures forall i | e.Posted? && e.index == i ::
      OpenClaim(log + [e], i) == if !e.settled && e.holdable then Some(e.target) else None
    ensures forall i | e.Found? && e.index == i ::
      OpenClaim(log + [e], i) == if Closes(OpenClaim(log, i), e.target) then None else OpenClaim(log, i)
    ensures forall i | e.RetryAdmitted? || e.index != i :: OpenClaim(log + [e], i) == OpenClaim(log, i)
    ensures NoBlind(log + [e]) <==> NoBlind(log) && (e.Posted? ==> OpenClaim(log, e.index).None?)
  {
    assert (log + [e])[..|log|] == log;
  }

  /** The open claims after the at most two events of an attempt. */
  lemma OpenAfter(log: seq<Event>, i: string, before: Record, u: Upstream)
    ensures var a := Run(PreviousOf(before), u);
      var mid := if a.post.None? then OpenClaim(log, i)
        else if !Settled(a.post.value) && Holdable(before, u, a.post.value) then Some(a.post.value.target) else None;
      && OpenClaim(log + Events(i, before, u), i)
         == (if a.read.Some? && ReadFinds(u, a.read.value) && Closes(mid, a.read.value) then None else mid)
      && (forall j | j != i :: OpenClaim(log + Events(i, before, u), j) == OpenClaim(log, j))
      && (NoBlind(log + Events(i, before, u)) <==> NoBlind(log) && (a.post.Some? ==> OpenClaim(log, i).None?))
  {
    hide Run, Settled, Holdable, ReadFinds, OpenClaim, NoBlind;
    var a := Run(PreviousOf(before), u);
    var posts, found := PostEvents(i, before, u, a), ReadEvents(i, u, a);
    assert log + (posts + found) == log + posts + found;
    if posts == [] { assert log + posts == log; } else { OpenSnoc(log, posts[0]); }
    if found == [] { assert log + posts + found == log + posts; } else { OpenSnoc(log + posts, found[0]); }
  }

  lemma TryKeepsClaims(w: World, i: string, u: Upstream, before: Record, log: seq<Event>)
    requires ClaimsOk(w) && i in w.runs && w.runs[i] == Running(before)
    requires log == w.log + Events(i, before, u)
    ensures NoBlind(log)
    ensures OpenClaim(log, i).Some? ==>
      Holds(Attempted(before, Run(PreviousOf(before), u).conclusion), OpenClaim(log, i).value)
    ensures forall j | j != i :: OpenClaim(log, j) == OpenClaim(w.log, j)
  {
    var a := Run(PreviousOf(before), u);
    OpenAfter(w.log, i, before, u);
    if before.confirmOnly {
      ReadOnlyRunNames(before, u);
    } else if a.post.Some? && !Settled(a.post.value) && !a.conclusion.confirmed {
      HeldExactly(before, u);
    }
    ConfirmedExactlyByEvidence(PreviousOf(before), u);
    hide Run, Settled, OpenClaim, NoBlind, Events, ReadFinds, NamesNext, Names;
  }

  /** Admission and the change of days keep the read-only mark and the claim it names. */
  lemma AdmissionNames(r: Record, today: int, id: string, source: Source, now: int)
    ensures var taken := Taken(ForDay(r, today), id, source, now);
      taken.confirmOnly == r.confirmOnly && Names(taken) == Names(r)
    ensures r.confirmOnly ==> !Evictable(r, today)
  {
  }

  lemma AdmitKeepsClaims(cal: Calendar, w: World, step: Step)
    requires TableOk(cal, w) && ClaimsOk(w) && Enabled(cal, w, step) && step.Admit?
    ensures ClaimsOk(Next(cal, w, step))
  {
    AdmitNext(cal, w, step);
    OpenSnoc(w.log, RetryAdmitted(step.index, cal(step.now)));
    var after := Next(cal, w, step);
    hide Next, Enabled, Reserve, OpenClaim, NoBlind, RecordOk, Evictable, Taken, ForDay, Refused, Names, NamesNext;
    forall i | OpenClaim(after.log, i).Some?
      ensures i in after.records
      ensures if i in after.runs then Holds(after.runs[i], OpenClaim(after.log, i).value)
        else after.records[i].confirmOnly && Names(after.records[i]) == ContractOf(OpenClaim(after.log, i).value)
    {
      assert OpenClaim(after.log, i) == OpenClaim(w.log, i);
      AdmissionNames(w.records[i], cal(step.now), step.id, step.source, step.now);
      if i in w.runs {
        AdmitKeepsRun(cal, w, step, i);
      }
    }
  }

  lemma ConcludeKeepsClaims(cal: Calendar, w: World, i: string, now: int)
    requires ClaimsOk(w) && Enabled(cal, w, Conclude(i, now))
    ensures ClaimsOk(Next(cal, w, Conclude(i, now)))
  {
    hide Run, Reserve, OpenClaim, NoBlind, Events, NextRetry;
  }

  /** The steps that are neither admissions nor attempts nor conclusions leave log and claims. */
  lemma RestKeepsPhases(cal: Calendar, w: World, step: Step)
    requires Enabled(cal, w, step) && !step.Admit? && !step.Try? && !step.Conclude?
    ensures var after := Next(cal, w, step);
      && after.log == w.log && Softens(w, after)
      && forall i, t | i in w.runs && Holds(w.runs[i], t) :: Holds(after.runs[i], t)
  {
    RestSoftens(cal, w, step);
    hide Run, Events, Displaces, Blank, Reserve, Finish, Softens;
  }

  lemma SoftKeepsClaims(w: World, after: World)
    requires ClaimsOk(w) && Softens(w, after) && after.log == w.log
    requires forall i, t | i in w.runs && Holds(w.runs[i], t) :: Holds(after.runs[i], t)
    ensures ClaimsOk(after)
  {
    hide OpenClaim, NoBlind, Holds;
  }

  lemma KeepsClaims(cal: Calendar, w: World, step: Step)
    requires TableOk(cal, w) && ClaimsOk(w) && Enabled(cal, w, step)
    ensures ClaimsOk(Next(cal, w, step))
  {
    if step.Admit? {
      AdmitKeepsClaims(cal, w, step);
    } else if step.Try? {
      AttemptKeepsClaims(cal, w, step.index, step.u);
    } else if step.Conclude? {
      ConcludeKeepsClaims(cal, w, step.index, step.now);
    } else {
      RestKeepsPhases(cal, w, step);
      SoftKeepsClaims(w, Next(cal, w, step));
    }
    hide *;
  }

  lemma AttemptKeepsClaims(cal: Calendar, w: World, i: string, u: Upstream)
    requires TableOk(cal, w) && ClaimsOk(w) && Enabled(cal, w, Try(i, u))
    ensures ClaimsOk(Next(cal, w, Try(i, u)))
  {
    hide Run, Settled, Reserve, OpenClaim, NoBlind, Events, Finish, Holds, RecordOk, SameBut;
    TryKeepsClaims(w, i, u, w.runs[i].before, Next(cal, w, Try(i, u)).log);
    assert i in w.records;
  }

  /** The last POST or finding of an account. */
  ghost function LastClaimEvent(log: seq<Event>, i: string): Option<Event> {
    if log == [] then None
    else
      var last := log[|log| - 1];
      if !last.RetryAdmitted? && last.index == i then Some(last) else LastClaimEvent(log[..|log| - 1], i)
  }

  /** A finding of a claim of that account under that contract and campaign. */
  ghost predicate FoundUnder(e: Option<Event>, i: string, c: Contract) {
    e.Some? && e.value.Found? && e.value.index == i && ContractOf(e.value.target) == c
  }

  /** A read-only run that is confirmed has just found a claim under the contract and campaign its
      record names; one that is not leaves the record naming them. */
  ghost predicate PhaseOk(log: seq<Event>, i: string, p: Phase) {
    && !Blank(i)
    && (!p.Running? && p.before.confirmOnly ==>
          if p.c.confirmed then FoundUnder(LastClaimEvent(log, i), i, Names(p.before))
          else NamesNext(p.before, p.c) == Names(p.before))
  }

  ghost predicate EvidenceOk(w: World) {
    forall i | i in w.runs :: PhaseOk(w.log, i, w.runs[i])
  }

  lemma LastSnoc(log: seq<Event>, e: Event)
    ensures forall i ::
      LastClaimEvent(log + [e], i)
      == if !e.RetryAdmitted? && e.index == i then Some(e) else LastClaimEvent(log, i)
  {
    assert (log + [e])[..|log|] == log;
  }

  lemma LastAfter(log: seq<Event>, i: string, before: Record, u: Upstream)
    ensures forall j | j != i :: LastClaimEvent(log + Events(i, before, u), j) == LastClaimEvent(log, j)
    ensures var a := Run(PreviousOf(before), u);
      a.read.Some? && ReadFinds(u, a.read.value) ==>
        LastClaimEvent(log + Events(i, before, u), i) == Some(Found(i, a.read.value))
  {
    hide Run, Settled, Holdable, ReadFinds, LastClaimEvent;
    var a := Run(PreviousOf(before), u);
    var posts, found := PostEvents(i, before, u, a), ReadEvents(i, u, a);
    assert log + (posts + found) == log + posts + found;
    if posts == [] { assert log + posts == log; } else { LastSnoc(log, posts[0]); }
    if found == [] { assert log + posts + found == log + posts; } else { LastSnoc(log + posts, found[0]); }
  }

  lemma TryKeepsEvidence(cal: Calendar, w: World, i: string, u: Upstream)
    requires EvidenceOk(w) && Enabled(cal, w, Try(i, u))
    ensures EvidenceOk(Next(cal, w, Try(i, u)))
  {
    var before := w.runs[i].before;
    LastAfter(w.log, i, before, u);
    if before.confirmOnly { ReadOnlyRunNames(before, u); }
    hide Run, Events, ReadFinds, LastClaimEvent, Blank, NamesNext, Names, Reserve, Finish;
    var after := Next(cal, w, Try(i, u));
    forall j | j in after.runs ensures PhaseOk(after.log, j, after.runs[j]) {
      assert PhaseOk(w.log, j, w.runs[j]);
    }
  }

  lemma AdmitKeepsEvidence(cal: Calendar, w: World, step: Step)
    requires EvidenceOk(w) && Enabled(cal, w, step) && step.Admit?
    ensures EvidenceOk(Next(cal, w, step))
  {
    AdmitNext(cal, w, step);
    assert !Blank(step.index);
    LastSnoc(w.log, RetryAdmitted(step.index, cal(step.now)));
    hide Next, Enabled, Reserve, LastClaimEvent, Blank, NamesNext, Names, TableAdmits, Taken, ForDay, Refused;
    var after := Next(cal, w, step);
    forall j | j in after.runs ensures PhaseOk(after.log, j, after.runs[j]) {
      assert j in w.runs ==> PhaseOk(w.log, j, w.runs[j]);
    }
  }

  lemma KeepsEvidence(cal: Calendar, w: World, step: Step)
    requires EvidenceOk(w) && Enabled(cal, w, step)
    ensures EvidenceOk(Next(cal, w, step))
  {
    if step.Admit? {
      AdmitKeepsEvidence(cal, w, step);
    } else if step.Try? {
      TryKeepsEvidence(cal, w, step.index, step.u);
    } else {
      hide Run, Reserve, Finish, LastClaimEvent, Blank, Events, Displaces, Sweep, Cancel, CancelAll;
      var after := Next(cal, w, step);
      assert after.log == w.log;
      forall j | j in after.runs ensures PhaseOk(after.log, j, after.runs[j]) {
        assert PhaseOk(w.log, j, w.runs[j]);
      }
    }
  }

  /** A read-only record stays read-only and names the same contract and campaign, until a run of
      the account concludes whose confirming read, the last thing that happened upstream for it,
      found a claim under them: that campaign, or the legacy check-in of the day of the read. */
  lemma CheckpointLostOnlyByConfirmation(cal: Calendar, w: World, step: Step, i: string)
    requires TableOk(cal, w) && EvidenceOk(w) && Enabled(cal, w, step)
    requires i in w.records && w.records[i].confirmOnly
    ensures var after := Next(cal, w, step);
      || (i in after.records && after.records[i].confirmOnly && Names(after.records[i]) == Names(w.records[i]))
      || (step.Conclude? && step.index == i && FoundUnder(LastClaimEvent(w.log, i), i, Names(w.records[i])))
  {
    hide RecordOk, Run, Events, LastClaimEvent, FoundUnder, Reserve;
    if step.Admit? {
      AdmitNext(cal, w, step);
      hide Next, Enabled;
    } else if !step.Conclude? {
      RestSoftens(cal, w, step);
      hide Next, Enabled;
    } else if step.index == i {
      CheckpointOutcome(cal, w, i, step.now);
      hide Next, Enabled;
    }
  }

  lemma CheckpointOutcome(cal: Calendar, w: World, i: string, now: int)
    requires TableOk(cal, w) && EvidenceOk(w) && Enabled(cal, w, Conclude(i, now)) && w.records[i].confirmOnly
    ensures var after := Next(cal, w, Conclude(i, now));
      || (i in after.records && after.records[i].confirmOnly && Names(after.records[i]) == Names(w.records[i]))
      || FoundUnder(LastClaimEvent(w.log, i), i, Names(w.records[i]))
  {
    hide RecordOk, NextRetry, LastClaimEvent, Blank, Run, Reserve, Events;
    assert PhaseOk(w.log, i, w.runs[i]);
    assert Names(w.records[i]) == Names(w.runs[i].before);
  }

  // ----- the days of the claims never go back

  /** Two claims of one account under the legacy contract are in the order of their days. */
  ghost predicate DayBefore(e: Event, f: Event) {
    !e.RetryAdmitted? && !f.RetryAdmitted? && e.index == f.index && e.target.OfDay? && f.target.OfDay? ==>
      e.target.day <= f.target.day
  }

  ghost predicate DaysAscend(log: seq<Event>) {
    forall j, k | 0 <= j < k < |log| :: DayBefore(log[j], log[k])
  }

  /** All claims of the account so far are of that day or an earlier one. */
  ghost predicate UpTo(e: Event, i: string, day: int) {
    !e.RetryAdmitted? && e.index == i && e.target.OfDay? ==> e.target.day <= day
  }

  ghost predicate ClaimsUpTo(log: seq<Event>, i: string, day: int) {
    forall e | e in log :: UpTo(e, i, day)
  }

  ghost predicate DaysOk(w: World) {
    && DaysAscend(w.log)
    && (forall i :: ClaimsUpTo(w.log, i, w.today))
    && (forall i | i in w.runs && w.runs[i].Running? && w.runs[i].before.day.Some? ::
          ClaimsUpTo(w.log, i, w.runs[i].before.day.value))
  }

  lemma AscendSnoc(log: seq<Event>, e: Event)
    requires DaysAscend(log) && (!e.RetryAdmitted? && e.target.OfDay? ==> ClaimsUpTo(log, e.index, e.target.day))
    ensures DaysAscend(log + [e])
  {
    forall j | 0 <= j < |log| ensures DayBefore(log[j], e) {
      assert log[j] in log;
      if !e.RetryAdmitted? && e.target.OfDay? { assert UpTo(log[j], e.index, e.target.day); }
    }
  }

  lemma UpToSnoc(log: seq<Event>, e: Event, i: string, day: int, later: int)
    requires ClaimsUpTo(log, i, day) && day <= later && UpTo(e, i, later)
    ensures ClaimsUpTo(log + [e], i, later)
  {
    forall f | f in log + [e] ensures UpTo(f, i, later) {
      assert f == e || (f in log && UpTo(f, i, day));
    }
  }

  /** A POST of one day, then a finding of one not before it, after claims up to an earlier day. */
  lemma DaysAfter(log: seq<Event>, i: string, before: Record, u: Upstream, day: int, today: int)
    requires DaysAscend(log) && ClaimsUpTo(log, i, day) && day <= u.posted <= u.ended
    requires today <= u.ended && forall j :: ClaimsUpTo(log, j, today)
    ensures DaysAscend(log + Events(i, before, u)) && forall j :: ClaimsUpTo(log + Events(i, before, u), j, u.ended)
    ensures forall j, d | j != i && ClaimsUpTo(log, j, d) :: ClaimsUpTo(log + Events(i, before, u), j, d)
  {
    ClaimDays(PreviousOf(before), u);
    hide Run, Settled, Holdable, ReadFinds, ClaimsUpTo, DaysAscend;
    var a := Run(PreviousOf(before), u);
    var posts, found := PostEvents(i, before, u, a), ReadEvents(i, u, a);
    assert log + (posts + found) == log + posts + found;
    if posts == [] {
      assert log + posts == log;
      OneMoreDay(log, i, None, day, u.posted, today, u.ended);
    } else {
      assert log + posts == log + [posts[0]];
      OneMoreDay(log, i, Some(posts[0]), day, u.posted, today, u.ended);
    }
    if found == [] {
      assert log + posts + found == log + posts;
    } else {
      assert log + posts + found == log + posts + [found[0]];
      OneMoreDay(log + posts, i, Some(found[0]), u.posted, u.ended, u.ended, u.ended);
    }
  }

  lemma OneMoreDay(log: seq<Event>, i: string, e: Option<Event>, day: int, at: int, today: int, ended: int)
    requires DaysAscend(log) && ClaimsUpTo(log, i, day) && day <= at <= ended && today <= ended
    requires forall j :: ClaimsUpTo(log, j, today)
    requires e.Some? ==> !e.value.RetryAdmitted? && e.value.index == i
    requires e.Some? && e.value.target.OfDay? ==> e.value.target.day == at
    ensures var after := if e.Some? then log + [e.value] else log;
      && DaysAscend(after) && ClaimsUpTo(after, i, at) && (forall j :: ClaimsUpTo(after, j, ended))
      && forall j, d | j != i && ClaimsUpTo(log, j, d) :: ClaimsUpTo(after, j, d)
  {
    UpToLater(log, i, day, at);
    forall j ensures ClaimsUpTo(log, j, ended) { UpToLater(log, j, today, ended); }
    if e.Some? {
      AscendSnoc(log, e.value);
      UpToSnoc(log, e.value, i, at, at);
      forall j ensures ClaimsUpTo(log + [e.value], j, ended) { UpToSnoc(log, e.value, j, ended, ended); }
      forall j, d | j != i && ClaimsUpTo(log, j, d) ensures ClaimsUpTo(log + [e.value], j, d) {
        UpToSnoc(log, e.value, j, d, d);
      }
    }
    hide ClaimsUpTo, DaysAscend;
  }

  lemma UpToLater(log: seq<Event>, i: string, day: int, later: int)
    requires ClaimsUpTo(log, i, day) && day <= later
    ensures ClaimsUpTo(log, i, later)
  {
    forall e | e in log ensures UpTo(e, i, later) { assert UpTo(e, i, day); }
  }

  lemma TryKeepsDays(cal: Calendar, w: World, i: string, u: Upstream)
    requires DaysOk(w) && Enabled(cal, w, Try(i, u))
    ensures DaysOk(Next(cal, w, Try(i, u)))
  {
    var before := w.runs[i].before;
    DaysAfter(w.log, i, before, u, before.day.value, w.today);
    hide Run, Events, ClaimsUpTo, DaysAscend, Reserve, Finish;
  }

  lemma AdmitKeepsDays(cal: Calendar, w: World, step: Step)
    requires DaysOk(w) && Enabled(cal, w, step) && step.Admit?
    ensures DaysOk(Next(cal, w, step))
  {
    AdmitNext(cal, w, step);
    var after := Next(cal, w, step);
    var e := RetryAdmitted(step.index, cal(step.now));
    TakenDay(AtIndex(w.records, step.index), cal(step.now), step.id, step.source, step.now);
    hide Next, Enabled, Reserve, TableAdmits, Taken, ForDay, Refused, ClaimsUpTo, DaysAscend;
    AscendSnoc(w.log, e);
    forall i ensures ClaimsUpTo(after.log, i, after.today) {
      UpToLater(w.log, i, w.today, after.today);
      UpToSnoc(w.log, e, i, after.today, after.today);
    }
    forall i | i in w.runs && w.runs[i].Running? && w.runs[i].before.day.Some?
      ensures ClaimsUpTo(after.log, i, w.runs[i].before.day.value)
    {
      UpToSnoc(w.log, e, i, w.runs[i].before.day.value, w.runs[i].before.day.value);
    }
  }

  lemma TakenDay(r: Record, today: int, id: string, source: Source, now: int)
    ensures Taken(ForDay(r, today), id, source, now).day == Some(today)
  {
  }

  lemma KeepsDays(cal: Calendar, w: World, step: Step)
    requires DaysOk(w) && Enabled(cal, w, step)
    ensures DaysOk(Next(cal, w, step))
  {
    if step.Admit? {
      AdmitKeepsDays(cal, w, step);
    } else if step.Try? {
      TryKeepsDays(cal, w, step.index, step.u);
    } else {
      hide Run, Reserve, Finish, Events, Displaces, Sweep, Cancel, CancelAll, ClaimsUpTo, DaysAscend;
    }
  }

  // ----- the retry budget

  ghost function RetriesOn(log: seq<Event>, i: string, day: int): nat {
    if log == [] then 0
    else RetriesOn(log[..|log| - 1], i, day) + (if log[|log| - 1] == RetryAdmitted(i, day) then 1 else 0)
  }

  ghost predicate BudgetOk(w: World) {
    && (forall i, d :: RetriesOn(w.log, i, d) <= |RETRY_DELAYS|)
    && (forall i, d | d > w.today :: RetriesOn(w.log, i, d) == 0)
    && (forall i :: RetriesOn(w.log, i, w.today)
         == if i in w.records && w.records[i].day == Some(w.today) then w.records[i].retries else 0)
  }

  lemma RetriesSnoc(log: seq<Event>, e: Event)
    ensures forall i, d ::
      RetriesOn(log + [e], i, d) == RetriesOn(log, i, d) + if e == RetryAdmitted(i, d) then 1 else 0
  {
    assert (log + [e])[..|log|] == log;
  }

  lemma TryKeepsRetries(log: seq<Event>, i: string, before: Record, u: Upstream)
    ensures forall j, d :: RetriesOn(log + Events(i, before, u), j, d) == RetriesOn(log, j, d)
  {
    hide Run, Settled, Holdable, ReadFinds, RetriesOn;
    var a := Run(PreviousOf(before), u);
    var posts, found := PostEvents(i, before, u, a), ReadEvents(i, u, a);
    assert log + (posts + found) == log + posts + found;
    if posts == [] { assert log + posts == log; } else { RetriesSnoc(log, posts[0]); }
    if found == [] { assert log + posts + found == log + posts; } else { RetriesSnoc(log + posts, found[0]); }
  }

  ghost function Spent(t: Table, k: string, today: int): nat {
    if k in t && t[k].day == Some(today) then t[k].retries else 0
  }

  /** An admission charges one retry if it is one, and changes no other budget of the day. */
  lemma AdmitSpends(cal: Calendar, w: World, step: Step, k: string)
    requires TableOk(cal, w) && Enabled(cal, w, step) && step.Admit?
    ensures var after := Next(cal, w, step);
      Spent(after.records, k, cal(step.now)) == Spent(w.records, k, cal(step.now))
        + (if after.log != w.log && k == step.index then 1 else 0)
    ensures var after := Next(cal, w, step);
      after.log == w.log || after.log == w.log + [RetryAdmitted(step.index, cal(step.now))]
    ensures Spent(Next(cal, w, step).records, k, cal(step.now)) <= |RETRY_DELAYS|
    ensures Next(cal, w, step).today == cal(step.now)
  {
    hide Reserve, SameBut, Run, Events;
    AdmitNext(cal, w, step);
    AdmitKeepsTable(cal, w, step);
    hide Next, Enabled;
  }

  /** On the day of an admission the log and the table agree beforehand. */
  lemma BudgetAhead(cal: Calendar, w: World, day: int, k: string)
    requires TableOk(cal, w) && BudgetOk(w) && w.today <= day
    ensures RetriesOn(w.log, k, day) == Spent(w.records, k, day)
  {
    hide RetriesOn;
    if k in w.records { assert RecordOk(cal, w.today, w.records[k]); }
  }

  lemma AdmitKeepsBudget(cal: Calendar, w: World, step: Step)
    requires TableOk(cal, w) && BudgetOk(w) && Enabled(cal, w, step) && step.Admit?
    ensures BudgetOk(Next(cal, w, step))
  {
    hide *;
    AdmitNext(cal, w, step);
    var after, day := Next(cal, w, step), cal(step.now);
    RetriesSnoc(w.log, RetryAdmitted(step.index, day));
    forall k
      ensures RetriesOn(after.log, k, day) == Spent(after.records, k, day) <= |RETRY_DELAYS|
    {
      BudgetAhead(cal, w, day, k);
      AdmitSpends(cal, w, step, k);
    }
    AdmitSpends(cal, w, step, step.index);
    BudgetFromLog(w, after);
  }

  lemma BudgetFromLog(w: World, after: World)
    requires BudgetOk(w) && w.today <= after.today
    requires forall k :: RetriesOn(after.log, k, after.today) == Spent(after.records, k, after.today) <= |RETRY_DELAYS|
    requires forall k, d | d != after.today :: RetriesOn(after.log, k, d) == RetriesOn(w.log, k, d)
    ensures BudgetOk(after)
  {
    hide RetriesOn;
    forall k ensures RetriesOn(after.log, k, after.today) == Spent(after.records, k, after.today) {
    }
  }

  lemma RestSpendsNothing(cal: Calendar, w: World, step: Step, k: string, day: int)
    requires TableOk(cal, w) && Enabled(cal, w, step) && !step.Admit?
    ensures Spent(Next(cal, w, step).records, k, day) == Spent(w.records, k, day) <= |RETRY_DELAYS|
    ensures w.today <= Next(cal, w, step).today
  {
    SpentAtMost(cal, w, k, day);
    hide RecordOk, NextRetry, Events, Run, Reserve, Displaces;
    if !step.Conclude? {
      RestSoftens(cal, w, step);
      hide Next, Enabled;
    }
  }

  lemma SpentAtMost(cal: Calendar, w: World, k: string, day: int)
    requires TableOk(cal, w)
    ensures Spent(w.records, k, day) <= |RETRY_DELAYS|
  {
    if k in w.records { assert RecordOk(cal, w.today, w.records[k]); }
  }

  lemma RestAdmitsNothing(cal: Calendar, w: World, step: Step)
    requires Enabled(cal, w, step) && !step.Admit?
    ensures forall i, d :: RetriesOn(Next(cal, w, step).log, i, d) == RetriesOn(w.log, i, d)
  {
    hide RetriesOn, Events, Reserve, Displaces, Finish, Sweep, CancelAll, Cancel;
    if step.Try? {
      TryKeepsRetries(w.log, step.index, w.runs[step.index].before, step.u);
      hide Run;
    }
  }

  lemma KeepsBudget(cal: Calendar, w: World, step: Step)
    requires TableOk(cal, w) && BudgetOk(w) && Enabled(cal, w, step)
    ensures BudgetOk(Next(cal, w, step))
  {
    hide *;
    if step.Admit? {
      AdmitKeepsBudget(cal, w, step);
    } else {
      var after := Next(cal, w, step);
      RestAdmitsNothing(cal, w, step);
      RestSpendsNothing(cal, w, step, "", after.today);
      forall k
        ensures RetriesOn(after.log, k, after.today) == Spent(after.records, k, after.today) <= |RETRY_DELAYS|
      {
        BudgetAhead(cal, w, after.today, k);
        RestSpendsNothing(cal, w, step, k, after.today);
      }
      BudgetFromLog(w, after);
    }
  }

  // ----- cancellation

  ghost predicate QuietOk(w: World) {
    w.quiet ==>
      && !w.auto
      && (forall i | i in w.records :: w.records[i].next.None?)
      && (forall i | i in w.runs && w.runs[i].Deciding? && w.runs[i].enabled ::
            i in w.records && w.records[i].generation != w.runs[i].before.generation)
  }

  lemma KeepsQuiet(cal: Calendar, w: World, step: Step)
    requires TableOk(cal, w) && QuietOk(w) && Enabled(cal, w, step)
    ensures QuietOk(Next(cal, w, step))
  {
    hide Run, Settled, Reserve, Events, RecordOk, Displaces, Blank, Abandoned;
    match step {
      case Admit(i, id, source, now, victim) => AdmitKeepsQuiet(cal, w, step);
      case _ =>
    }
  }

  lemma AdmitKeepsQuiet(cal: Calendar, w: World, step: Step)
    requires TableOk(cal, w) && QuietOk(w) && Enabled(cal, w, step) && step.Admit?
    ensures QuietOk(Next(cal, w, step))
  {
    var after := Next(cal, w, step);
    AdmitNext(cal, w, step);
    TakenQuiet(AtIndex(w.records, step.index), cal(step.now), step.id, step.source, step.now);
    hide Next, Enabled, Reserve, RecordOk, Evictable, Taken, ForDay, TableOk, Refused;
    if w.quiet {
      forall i | i in after.records ensures after.records[i].next.None? {
      }
      forall i | i in after.runs && after.runs[i].Deciding? && after.runs[i].enabled
        ensures i in after.records && after.records[i].generation != after.runs[i].before.generation
      {
        AdmitKeepsRun(cal, w, step, i);
      }
    }
  }

  lemma TakenQuiet(r: Record, today: int, id: string, source: Source, now: int)
    ensures r.next.None? ==> Taken(ForDay(r, today), id, source, now).next.None?
  {
  }

  // ----- all runs

  ghost predicate Good(cal: Calendar, w: World) {
    TableOk(cal, w) && ClaimsOk(w) && EvidenceOk(w) && DaysOk(w) && BudgetOk(w) && QuietOk(w)
  }

  lemma {:induction false} EveryRunIsGood(cal: Calendar, w: World, steps: seq<Step>)
    requires Good(cal, w) && Legal(cal, w, steps)
    ensures Good(cal, Play(cal, w, steps))
    decreases |steps|
  {
    hide TableOk, ClaimsOk, EvidenceOk, DaysOk, BudgetOk, QuietOk, Enabled, Next;
    if steps != [] {
      KeepsTable(cal, w, steps[0]);
      KeepsClaims(cal, w, steps[0]);
      KeepsEvidence(cal, w, steps[0]);
      KeepsDays(cal, w, steps[0]);
      KeepsBudget(cal, w, steps[0]);
      KeepsQuiet(cal, w, steps[0]);
      EveryRunIsGood(cal, Next(cal, w, steps[0]), steps[1..]);
    }
  }

  lemma StartIsGood(cal: Calendar, today: int)
    ensures Good(cal, Start(today))
  {
  }

  /** A read of the account finds a claim under the contract and campaign of t. */
  ghost predicate FindsLike(e: Event, i: string, t: Target) {
    e.Found? && e.index == i && ContractOf(e.target) == ContractOf(t)
  }

  /** Such a finding, and for the legacy contract made on the day of the claim. */
  ghost predicate FindsOnItsDay(e: Event, i: string, t: Target) {
    FindsLike(e, i, t) && (t.OfDay? ==> e.target.day == t.day)
  }

  lemma FindingIsOwn(e: Event, i: string, t: Target)
    ensures e == Found(i, t) <==> FindsOnItsDay(e, i, t)
  {
  }

  lemma {:induction false} OpenPersists(log: seq<Event>, i: string, t: Target, p: nat)
    requires p < |log| && log[p] == Posted(i, t, false, true)
    requires forall k | p < k < |log| :: !(log[k].Posted? && log[k].index == i) && !FindsLike(log[k], i, t)
    ensures OpenClaim(log, i) == Some(t)
  {
    if p < |log| - 1 {
      OpenPersists(log[..|log| - 1], i, t, p);
    }
  }

  lemma {:induction false} NoBlindAt(log: seq<Event>, q: nat)
    requires NoBlind(log) && q < |log| && log[q].Posted?
    ensures OpenClaim(log[..q], log[q].index).None?
  {
    if q < |log| - 1 {
      NoBlindAt(log[..|log| - 1], q);
      assert log[..|log| - 1][..q] == log[..q];
    }
  }

  lemma {:induction false} FoundBetween(log: seq<Event>, i: string, t: Target, p: nat, q: nat)
    requires NoBlind(log) && p < q < |log| && log[p] == Posted(i, t, false, true) && log[q].Posted? && log[q].index == i
    ensures exists k :: p < k < q && FindsLike(log[k], i, t)
    decreases q
  {
    if m :| p < m < q && log[m].Posted? && log[m].index == i {
      FoundBetween(log, i, t, p, m);
    } else {
      NoBlindAt(log, q);
      if forall k | p < k < q :: !FindsLike(log[k], i, t) {
        OpenPersists(log[..q], i, t, p);
      }
    }
  }

  /** The finding is of the POST's own claim when a campaign's claim is posted, or the later POST is
      for the same claim: the days of the account's claims never go back. */
  lemma FoundSameBetween(log: seq<Event>, i: string, t: Target, p: nat, q: nat)
    requires NoBlind(log) && DaysAscend(log)
    requires p < q < |log| && log[p] == Posted(i, t, false, true) && log[q].Posted? && log[q].index == i
    requires t.OfCampaign? || log[q].target == t
    ensures exists k :: p < k < q && log[k] == Found(i, t)
  {
    FoundBetween(log, i, t, p, q);
    var k :| p < k < q && FindsLike(log[k], i, t);
    if t.OfDay? {
      assert DayBefore(log[p], log[k]) && DayBefore(log[k], log[q]);
    }
    assert log[k] == Found(i, t);
  }

  /** Main theorem: in every interleaving, between a holdable POST whose reply settled nothing
      and any later claim POST for that account, a confirming read found a claim under the same
      contract and campaign. A campaign is not posted for again, and a day's check-in not posted
      again, before a read found that very claim; in general it was found exactly when such a read
      was made on the claim's own day, or it is a campaign's. */
  lemma NoBlindRepost(cal: Calendar, today: int, steps: seq<Step>, i: string, t: Target, p: nat, q: nat)
    requires Legal(cal, Start(today), steps)
    requires p < q < |Play(cal, Start(today), steps).log|
    requires Play(cal, Start(today), steps).log[p] == Posted(i, t, false, true)
    requires Play(cal, Start(today), steps).log[q].Posted? && Play(cal, Start(today), steps).log[q].index == i
    ensures exists k :: p < k < q && FindsLike(Play(cal, Start(today), steps).log[k], i, t)
    ensures t.OfCampaign? || Play(cal, Start(today), steps).log[q].target == t ==>
      exists k :: p < k < q && Play(cal, Start(today), steps).log[k] == Found(i, t)
    ensures (exists k :: p < k < q && Play(cal, Start(today), steps).log[k] == Found(i, t))
      <==> exists k :: p < k < q && FindsOnItsDay(Play(cal, Start(today), steps).log[k], i, t)
  {
    StartIsGood(cal, today);
    EveryRunIsGood(cal, Start(today), steps);
    hide Play, Legal, TableOk, BudgetOk, QuietOk, EvidenceOk, DaysAscend, FindsLike, NoBlind;
    var log := Play(cal, Start(today), steps).log;
    FoundBetween(log, i, t, p, q);
    forall k | p < k < q ensures log[k] == Found(i, t) <==> FindsOnItsDay(log[k], i, t) {
      FindingIsOwn(log[k], i, t);
    }
    hide FindsOnItsDay;
    if t.OfCampaign? || log[q].target == t {
      FoundSameBetween(log, i, t, p, q);
    }
  }

  /** Main theorem: whatever is evicted, an account is admitted at most three retries a day,
      the table never outgrows its limit, every scheduled retry falls on its record's own day
      with budget left, and once auto check-in is off and cancelled nothing is scheduled. */
  lemma BudgetAndSchedules(cal: Calendar, today: int, steps: seq<Step>)
    requires Legal(cal, Start(today), steps)
    ensures var w := Play(cal, Start(today), steps);
      && |w.records| <= RUN_LIMIT
      && (forall i, d :: RetriesOn(w.log, i, d) <= 3)
      && (forall i | i in w.records && w.records[i].next.Some? ::
            w.records[i].day == Some(cal(w.records[i].next.value)) && w.records[i].retries < |RETRY_DELAYS|)
      && (w.quiet ==> forall i | i in w.records :: w.records[i].next.None?)
  {
    StartIsGood(cal, today);
    EveryRunIsGood(cal, Start(today), steps);
    hide Play, Legal, ClaimsOk, EvidenceOk, DaysOk;
  }

  /** A run of i that was cancelled after its admission. */
  ghost predicate CancelledRun(w: World, i: string) {
    i in w.runs && i in w.records && w.records[i].generation > w.runs[i].before.generation
  }

  lemma {:induction false} CancelRemembered(cal: Calendar, w: World, steps: seq<Step>, i: string)
    requires TableOk(cal, w) && CancelledRun(w, i) && Legal(cal, w, steps)
    requires forall k | 0 <= k < |steps| :: !(steps[k].Conclude? && steps[k].index == i)
    ensures CancelledRun(Play(cal, w, steps), i)
    decreases |steps|
  {
    if steps != [] {
      KeepsTable(cal, w, steps[0]);
      StaysCancelled(cal, w, steps[0], i);
      hide TableOk, Enabled, Next, CancelledRun;
      assert forall k | 0 <= k < |steps[1..]| :: steps[1..][k] == steps[k + 1];
      CancelRemembered(cal, Next(cal, w, steps[0]), steps[1..], i);
    }
  }

  lemma StaysCancelled(cal: Calendar, w: World, step: Step, i: string)
    requires TableOk(cal, w) && CancelledRun(w, i) && Enabled(cal, w, step)
    requires !(step.Conclude? && step.index == i)
    ensures CancelledRun(Next(cal, w, step), i)
  {
    if step.Admit? {
      AdmitKeepsRun(cal, w, step, i);
      hide Next, Enabled, RecordOk;
    } else if !step.Conclude? {
      RestSoftens(cal, w, step);
      hide Next, Enabled, RecordOk;
    }
  }

  /** A cancellation between admission and conclusion leaves no retry scheduled, however much
      else happens in between. */
  lemma CancelIsNeverLost(cal: Calendar, w: World, cancel: Step, steps: seq<Step>, i: string, now: int)
    requires TableOk(cal, w) && i in w.runs
    requires cancel == CancelOne(i) || cancel == CancelEvery
    requires Legal(cal, Next(cal, w, cancel), steps)
    requires forall k | 0 <= k < |steps| :: !(steps[k].Conclude? && steps[k].index == i)
    requires Enabled(cal, Play(cal, Next(cal, w, cancel), steps), Conclude(i, now))
    ensures Next(cal, Play(cal, Next(cal, w, cancel), steps), Conclude(i, now)).records[i].next.None?
  {
    KeepsTable(cal, w, cancel);
    CancelMarks(cal, w, cancel, i);
    hide *;
    CancelRemembered(cal, Next(cal, w, cancel), steps, i);
    CancelledConcludes(cal, Play(cal, Next(cal, w, cancel), steps), i, now);
  }

  lemma CancelMarks(cal: Calendar, w: World, cancel: Step, i: string)
    requires TableOk(cal, w) && i in w.runs && (cancel == CancelOne(i) || cancel == CancelEvery)
    ensures Enabled(cal, w, cancel) && CancelledRun(Next(cal, w, cancel), i)
  {
    hide RecordOk, Run, Reserve, Finish, Events;
  }

  lemma CancelledConcludes(cal: Calendar, w: World, i: string, now: int)
    requires CancelledRun(w, i) && Enabled(cal, w, Conclude(i, now))
    ensures i in Next(cal, w, Conclude(i, now)).records && Next(cal, w, Conclude(i, now)).records[i].next.None?
  {
    hide Run, Reserve, Events;
  }
}
