/** When an account posts again before a claim was found: legal runs in which it happens, and for
    every open POST the exact conditions under which it can happen. */
module CheckinRepost {
  import opened Collections
  import opened CheckinAttempt
  import opened CheckinRuns
  import opened CheckinProtocol

  /** At q the account posts, and since p no read has found the claim t. */
  ghost predicate PostsUnfound(log: seq<Event>, p: nat, q: nat, i: string, t: Target)
    requires p < q < |log|
  {
    log[q].Posted? && log[q].index == i && forall k | p < k < q :: log[k] != Found(i, t)
  }

  /** After p the account posts for anything before the claim t was found. */
  ghost predicate PostedUnfound(log: seq<Event>, p: nat, i: string, t: Target) {
    exists q :: p < q < |log| && PostsUnfound(log, p, q, i, t)
  }

  /** After p the account posts for t itself again before it was found. */
  ghost predicate RepostedBlindly(log: seq<Event>, p: nat, i: string, t: Target) {
    exists q :: p < q < |log| && PostsUnfound(log, p, q, i, t) && log[q].target == t
  }

  // ----- running in parts

  lemma {:induction false} PlayAppend(cal: Calendar, w: World, a: seq<Step>, b: seq<Step>)
    requires Legal(cal, w, a) && Legal(cal, Play(cal, w, a), b)
    ensures Legal(cal, w, a + b) && Play(cal, w, a + b) == Play(cal, Play(cal, w, a), b)
    decreases |a|
  {
    hide Enabled, Next;
    if a == [] {
      assert a + b == b;
    } else {
      PlayAppend(cal, Next(cal, w, a[0]), a[1..], b);
      assert (a + b)[0] == a[0] && (a + b)[1..] == a[1..] + b;
    }
  }

  lemma PlayTwo(cal: Calendar, w: World, a: Step, b: Step)
    requires Enabled(cal, w, a) && Enabled(cal, Next(cal, w, a), b)
    ensures Legal(cal, w, [a, b]) && Play(cal, w, [a, b]) == Next(cal, Next(cal, w, a), b)
  {
    hide Enabled, Next;
    var w1 := Next(cal, w, a);
    var w2 := Next(cal, w1, b);
    assert [a, b][1..] == [b] && [b][1..] == [];
    assert Legal(cal, w2, []) && Play(cal, w2, []) == w2;
    assert Legal(cal, w1, [b]) && Play(cal, w1, [b]) == w2;
  }

  lemma {:induction false} LogGrows(cal: Calendar, w: World, steps: seq<Step>)
    requires Legal(cal, w, steps)
    ensures w.log <= Play(cal, w, steps).log
    decreases |steps|
  {
    if steps != [] {
      NextGrows(cal, w, steps[0]);
      hide Enabled, Next;
      LogGrows(cal, Next(cal, w, steps[0]), steps[1..]);
    }
  }

  lemma NextGrows(cal: Calendar, w: World, step: Step)
    requires Enabled(cal, w, step)
    ensures w.log <= Next(cal, w, step).log
  {
    hide Run, Events, Reserve, Finish, Displaces;
  }

  // ----- a visit: the account is admitted by hand, attempted and concluded

  /** Nobody else is running, and the account may be admitted without displacing a record. */
  ghost predicate Visitable(cal: Calendar, w: World, i: string, now: int) {
    i !in w.runs && !Blank(i) && w.today <= cal(now) && (i in w.records || |w.records| < RUN_LIMIT)
  }

  function Admitted(w: World, i: string, today: int, now: int): Record {
    Taken(ForDay(AtIndex(w.records, i), today), "", Manual, now)
  }

  /** The day change keeps everything of a record but the confirmation. */
  lemma AdmittedKeeps(w: World, i: string, today: int, now: int)
    ensures var before := Admitted(w, i, today, now);
      && before.day == Some(today)
      && (i in w.records ==>
            && before.confirmOnly == w.records[i].confirmOnly && Names(before) == Names(w.records[i])
            && before.legacy == w.records[i].legacy && before.campaignId == w.records[i].campaignId
            && before.confirmed == (w.records[i].confirmed && w.records[i].day == Some(today)))
      && (i !in w.records ==> PreviousOf(before) == Previous(false, false, false, ""))
  {
  }

  /** The first half: admission and attempt. */
  ghost predicate Starts(cal: Calendar, w: World, i: string, now: int, u: Upstream, after: World) {
    var before := Admitted(w, i, cal(now), now);
    && after.today == u.ended && i in after.records
    && after.runs == w.runs[i := Attempted(before, Run(PreviousOf(before), u).conclusion)]
    && after.log == w.log + Events(i, before, u)
  }

  lemma StartVisit(cal: Calendar, w: World, i: string, now: int, u: Upstream)
    returns (steps: seq<Step>)
    requires Visitable(cal, w, i, now) && cal(now) <= u.posted <= u.ended
    ensures Legal(cal, w, steps) && Starts(cal, w, i, now, u, Play(cal, w, steps))
  {
    var admit := Admit(i, "", Manual, now, None);
    steps := [admit, Try(i, u)];
    AdmittedKeeps(w, i, cal(now), now);
    assert Enabled(cal, w, admit);
    assert Next(cal, w, admit).runs == w.runs[i := Running(Admitted(w, i, cal(now), now))];
    PlayTwo(cal, w, admit, Try(i, u));
    hide Run, Events, Taken, ForDay;
  }

  /** The second half: the auto switch is read and the outcome recorded. */
  ghost predicate Ends(cal: Calendar, w: World, i: string, now: int, after: World)
    requires i in w.runs && !w.runs[i].Running?
  {
    && after.log == w.log && after.today == w.today && after.runs == w.runs - {i}
    && i in after.records
    && after.records[i] == Outcome(AtIndex(w.records, i), w.runs[i].before, w.runs[i].c, now, w.auto, cal)
  }

  lemma EndVisit(cal: Calendar, w: World, i: string, now: int)
    returns (steps: seq<Step>)
    requires i in w.runs && w.runs[i].Attempted?
    ensures Legal(cal, w, steps) && Ends(cal, w, i, now, Play(cal, w, steps))
  {
    steps := [ReadAuto(i), CheckinProtocol.Conclude(i, now)];
    PlayTwo(cal, w, ReadAuto(i), CheckinProtocol.Conclude(i, now));
    hide Outcome, Run, Events;
    assert w.runs[i := Deciding(w.runs[i].before, w.runs[i].c, w.auto)] - {i} == w.runs - {i};
  }

  /** What the record says after a run with that conclusion. */
  ghost predicate Concluded(r: Record, before: Record, c: Conclusion) {
    && r.day == before.day && r.confirmOnly == NextConfirmOnly(before, c)
    && Names(r) == NamesNext(before, c) && r.confirmed == NextConfirmed(before, c)
  }

  lemma OutcomeConcludes(current: Record, before: Record, c: Conclusion, now: int, enabled: bool, cal: Calendar)
    ensures Concluded(Outcome(current, before, c, now, enabled, cal), before, c)
  {
  }

  /** A whole visit, from the record before to the record after. */
  ghost predicate Visits(cal: Calendar, w: World, i: string, now: int, u: Upstream, after: World) {
    var before := Admitted(w, i, cal(now), now);
    && after.log == w.log + Events(i, before, u) && after.today == u.ended && after.runs == w.runs
    && i in after.records && Concluded(after.records[i], before, Run(PreviousOf(before), u).conclusion)
  }

  lemma Visit(cal: Calendar, w: World, i: string, now: int, u: Upstream)
    returns (steps: seq<Step>)
    requires Visitable(cal, w, i, now) && cal(now) <= u.posted <= u.ended
    ensures Legal(cal, w, steps) && Visits(cal, w, i, now, u, Play(cal, w, steps))
  {
    hide Run, Events, Legal, Play, Outcome, ForDay, Taken, Concluded, Admitted;
    var before := Admitted(w, i, cal(now), now);
    var first := StartVisit(cal, w, i, now, u);
    var mid := Play(cal, w, first);
    var second := EndVisit(cal, mid, i, now);
    OutcomeConcludes(AtIndex(mid.records, i), before, Run(PreviousOf(before), u).conclusion, now, mid.auto, cal);
    PlayAppend(cal, w, first, second);
    steps := first + second;
    assert mid.runs - {i} == w.runs;
  }

  // ----- the upstreams of the failing runs

  function Listing(id: string, status: ClaimStatus): ReadReply<seq<Campaign>> {
    ReadStatus(200, Some([Campaign(id, true, status, 0, 0)]))
  }

  /** Only that campaign is claimable, and this is the answer to its POST. */
  function Offers(id: string, post: PostReply, day: int): Upstream {
    Upstream(true, true, 0, Listing(id, Claimable), ReadNothing, post, ReadNothing, ReadNothing, day, day)
  }

  /** The legacy check-in is claimable, its POST lost, and this is the answer to its confirming
      read. The campaign listing is gone. */
  function OffersDaily(confirm: ReadReply<LegacyStatus>, day: int): Upstream {
    Upstream(true, true, 0, ReadStatus(404, None), ReadStatus(200, Some(LegacyClaimable)), PostFailed(true),
             ReadNothing, confirm, day, day)
  }

  /** The confirming reads show the claim under that contract. */
  function Shows(c: Contract, day: int): Upstream {
    Upstream(true, true, 0, ReadNothing, ReadNothing, PostNothing,
             if c.CampaignContract? then Listing(c.id, Claimed) else ReadNothing,
             ReadStatus(200, Some(LegacyClaimedToday)), day, day)
  }

  const GRANTED := PostStatus(200, Some(ClaimBody(false, NotRejected, true, Some(true), false, false)))
  const REJECTED := PostStatus(400, None)

  lemma OffersEvents(i: string, before: Record, id: string, post: PostReply, day: int)
    requires !before.confirmOnly && id != "" && (before.confirmed ==> id != before.campaignId)
    requires post == PostNothing || post == GRANTED || post == REJECTED
    ensures var c := Run(PreviousOf(before), Offers(id, post, day)).conclusion;
      && Events(i, before, Offers(id, post, day)) == [Posted(i, OfCampaign(id), post != PostNothing, true)]
      && NextConfirmOnly(before, c) == (post == PostNothing) && NamesNext(before, c) == CampaignContract(id)
      && (post == GRANTED ==> NextConfirmed(before, c))
  {
    var open := [Campaign(id, true, Claimable, 0, 0)];
    assert FirstOpen(open, Claimable, 0) == Some(open[0]);
    hide FirstOpen;
  }

  lemma OffersDailyEvents(i: string, before: Record, confirm: ReadReply<LegacyStatus>, day: int)
    requires !before.confirmOnly && !(before.confirmed && before.legacy)
    requires confirm == ReadFailed(true) || confirm == ReadStatus(200, Some(LegacyClaimable))
    ensures var c := Run(PreviousOf(before), OffersDaily(confirm, day)).conclusion;
      var held := before.legacy || confirm != ReadFailed(true);
      && Events(i, before, OffersDaily(confirm, day)) == [Posted(i, OfDay(day), false, held)]
      && NextConfirmOnly(before, c) && NextConfirmed(before, c) == before.confirmed
      && NamesNext(before, c) == if held then LegacyContract else CampaignContract(before.campaignId)
  {
    hide FirstOpen;
  }

  lemma ShowsEvents(i: string, before: Record, day: int)
    requires before.confirmOnly
    ensures var u := Shows(Names(before), day);
      var c := Run(PreviousOf(before), u).conclusion;
      && Events(i, before, u) == [Found(i, TargetOn(Names(before), day))]
      && !NextConfirmOnly(before, c) && NamesNext(before, c) == Names(before) && NextConfirmed(before, c)
  {
    if Names(before).CampaignContract? {
      var listed := [Campaign(before.campaignId, true, Claimed, 0, 0)];
      assert listed[0] in listed;
    }
    hide FirstOpen;
  }

  // ----- visits of these kinds

  lemma VisitOffering(cal: Calendar, w: World, i: string, now: int, id: string, post: PostReply)
    returns (steps: seq<Step>)
    requires Visitable(cal, w, i, now) && id != "" && (post == PostNothing || post == GRANTED || post == REJECTED)
    requires i in w.records ==> !w.records[i].confirmOnly
    requires i in w.records && w.records[i].confirmed ==> id != w.records[i].campaignId
    ensures Legal(cal, w, steps)
    ensures var after := Play(cal, w, steps);
      && after.log == w.log + [Posted(i, OfCampaign(id), post != PostNothing, true)]
      && Visitable(cal, after, i, now) && i in after.records && after.records[i].day == Some(cal(now))
      && after.records[i].confirmOnly == (post == PostNothing) && Names(after.records[i]) == CampaignContract(id)
      && (post == GRANTED ==> after.records[i].confirmed)
  {
    hide Legal, Play, Run, Events, Admitted, Offers, NamesNext, NextConfirmOnly, NextConfirmed;
    AdmittedKeeps(w, i, cal(now), now);
    OffersEvents(i, Admitted(w, i, cal(now), now), id, post, cal(now));
    OffersDays(id, post, cal(now));
    steps := Visit(cal, w, i, now, Offers(id, post, cal(now)));
  }

  lemma OffersDays(id: string, post: PostReply, day: int)
    ensures Offers(id, post, day).posted == Offers(id, post, day).ended == day
  {
  }

  lemma VisitDaily(cal: Calendar, w: World, i: string, now: int, confirm: ReadReply<LegacyStatus>)
    returns (steps: seq<Step>)
    requires Visitable(cal, w, i, now)
    requires confirm == ReadFailed(true) || confirm == ReadStatus(200, Some(LegacyClaimable))
    requires i in w.records ==> !w.records[i].confirmOnly
    requires i in w.records && w.records[i].confirmed ==> w.records[i].day != Some(cal(now)) || !w.records[i].legacy
    ensures Legal(cal, w, steps)
    ensures var after := Play(cal, w, steps);
      var held := (i in w.records && w.records[i].legacy) || confirm != ReadFailed(true);
      && after.log == w.log + [Posted(i, OfDay(cal(now)), false, held)]
      && Visitable(cal, after, i, now) && i in after.records && after.records[i].confirmOnly
      && (held ==> Names(after.records[i]) == LegacyContract)
      && (!held && i in w.records ==> Names(after.records[i]) == Names(w.records[i]))
  {
    hide Legal, Play, Run, Events, OffersDaily, NamesNext, NextConfirmOnly, NextConfirmed, Admitted;
    AdmittedKeeps(w, i, cal(now), now);
    OffersDailyEvents(i, Admitted(w, i, cal(now), now), confirm, cal(now));
    OffersDailyDays(confirm, cal(now));
    steps := Visit(cal, w, i, now, OffersDaily(confirm, cal(now)));
  }

  lemma OffersDailyDays(confirm: ReadReply<LegacyStatus>, day: int)
    ensures OffersDaily(confirm, day).posted == OffersDaily(confirm, day).ended == day
  {
  }

  /** A read-only account is freed by a read that shows the claim under the contract it names. */
  lemma VisitShowing(cal: Calendar, w: World, i: string, now: int)
    returns (steps: seq<Step>)
    requires Visitable(cal, w, i, now) && i in w.records && w.records[i].confirmOnly
    ensures Legal(cal, w, steps)
    ensures var after := Play(cal, w, steps);
      && after.log == w.log + [Found(i, TargetOn(Names(w.records[i]), cal(now)))]
      && Visitable(cal, after, i, now) && i in after.records && !after.records[i].confirmOnly
      && after.records[i].confirmed && after.records[i].day == Some(cal(now))
      && Names(after.records[i]) == Names(w.records[i])
  {
    hide Legal, Play, Run, Events, Shows, NamesNext, NextConfirmOnly, NextConfirmed, Names, Admitted;
    AdmittedKeeps(w, i, cal(now), now);
    ShowsEvents(i, Admitted(w, i, cal(now), now), cal(now));
    ShowsDays(Names(w.records[i]), cal(now));
    steps := Visit(cal, w, i, now, Shows(Names(w.records[i]), cal(now)));
  }

  lemma ShowsDays(c: Contract, day: int)
    ensures Shows(c, day).posted == Shows(c, day).ended == day
  {
  }

  // ----- the failing runs

  /** A legal run from the start in which a day's legacy check-in is posted twice: the first POST and
      its confirming read are lost, the record still names campaign X, claimed earlier that day,
      and the listing of X passes for a confirmation. */
  lemma LegacyIsRepostedBlindly(cal: Calendar, i: string, now: int)
    returns (steps: seq<Step>)
    requires !Blank(i)
    ensures Legal(cal, Start(cal(now)), steps)
    ensures Play(cal, Start(cal(now)), steps).log == [
      Posted(i, OfCampaign("X"), true, true), Posted(i, OfDay(cal(now)), false, false),
      Found(i, OfCampaign("X")), Posted(i, OfDay(cal(now)), false, false)]
    ensures RepostedBlindly(Play(cal, Start(cal(now)), steps).log, 1, i, OfDay(cal(now)))
  {
    hide Legal, Play, RepostedBlindly, PostsUnfound;
    var w0 := Start(cal(now));
    var s1 := VisitOffering(cal, w0, i, now, "X", GRANTED);
    hide Visitable;
    var w1 := Play(cal, w0, s1);
    var s2 := VisitDaily(cal, w1, i, now, ReadFailed(true));
    var w2 := Play(cal, w1, s2);
    var s3 := VisitShowing(cal, w2, i, now);
    var w3 := Play(cal, w2, s3);
    var s4 := VisitDaily(cal, w3, i, now, ReadFailed(true));
    PlayAppend(cal, w0, s1, s2);
    PlayAppend(cal, w0, s1 + s2, s3);
    PlayAppend(cal, w0, s1 + s2 + s3, s4);
    steps := s1 + s2 + s3 + s4;
    ThirdAgain(Play(cal, w0, steps).log, i, cal(now));
  }

  lemma ThirdAgain(log: seq<Event>, i: string, day: int)
    requires |log| == 4 && log[2] == Found(i, OfCampaign("X"))
    requires log[3].Posted? && log[3].index == i && log[3].target == OfDay(day)
    ensures RepostedBlindly(log, 1, i, OfDay(day))
  {
    assert PostsUnfound(log, 1, 3, i, OfDay(day));
  }

  /** A legal run over three days: a legacy POST is lost, the next day's check-in, claimed elsewhere,
      passes for its confirmation, and the account posts on the third day. What became of the
      first day's claim was never found out. */
  lemma NextDayPassesForConfirmation(cal: Calendar, i: string, first: int, second: int, third: int)
    returns (steps: seq<Step>)
    requires !Blank(i) && cal(first) < cal(second) < cal(third)
    ensures Legal(cal, Start(cal(first)), steps)
    ensures Play(cal, Start(cal(first)), steps).log == [
      Posted(i, OfDay(cal(first)), false, true),
      Found(i, OfDay(cal(second))),
      Posted(i, OfDay(cal(third)), false, true)]
    ensures PostedUnfound(Play(cal, Start(cal(first)), steps).log, 0, i, OfDay(cal(first)))
  {
    hide Legal, Play;
    var w0 := Start(cal(first));
    var s1 := VisitDaily(cal, w0, i, first, ReadStatus(200, Some(LegacyClaimable)));
    var w1 := Play(cal, w0, s1);
    var s2 := VisitShowing(cal, w1, i, second);
    var w2 := Play(cal, w1, s2);
    var s3 := VisitDaily(cal, w2, i, third, ReadStatus(200, Some(LegacyClaimable)));
    PlayAppend(cal, w0, s1, s2);
    PlayAppend(cal, w0, s1 + s2, s3);
    steps := s1 + s2 + s3;
    assert PostsUnfound(Play(cal, w0, steps).log, 0, 2, i, OfDay(cal(first)));
  }

  // ----- exactly when it can happen

  /** The attempt's POST, and that its reply settles nothing. */
  function PostOf(before: Record, u: Upstream): Post
    requires Run(PreviousOf(before), u).post.Some?
  {
    Run(PreviousOf(before), u).post.value
  }

  ghost predicate LeavesOpen(before: Record, u: Upstream) {
    Run(PreviousOf(before), u).post.Some? && !Settled(PostOf(before, u))
  }

  /** The attempt's own confirming read finds the very claim it posted for. */
  predicate FindsOwn(before: Record, u: Upstream)
    requires Run(PreviousOf(before), u).post.Some?
  {
    Run(PreviousOf(before), u).read == Some(PostOf(before, u).target) && ReadFinds(u, PostOf(before, u).target)
  }

  ghost predicate LeadsToRepost(cal: Calendar, w: World, steps: seq<Step>, p: nat, i: string, t: Target) {
    Legal(cal, w, steps) && RepostedBlindly(Play(cal, w, steps).log, p, i, t)
  }

  ghost predicate LeadsToPost(cal: Calendar, w: World, steps: seq<Step>, p: nat, i: string, t: Target) {
    Legal(cal, w, steps) && PostedUnfound(Play(cal, w, steps).log, p, i, t)
  }

  /** An open POST that is not holdable: no read finds a claim, and the record is free, or
      read-only for a campaign while the POST was a legacy one. */
  lemma UnheldParts(before: Record, u: Upstream)
    requires LeavesOpen(before, u) && !Holdable(before, u, PostOf(before, u))
    ensures var a := Run(PreviousOf(before), u);
      var t := PostOf(before, u).target;
      && !before.confirmOnly && !(a.read.Some? && ReadFinds(u, a.read.value))
      && (NextConfirmOnly(before, a.conclusion) ==> t.OfDay? && NamesNext(before, a.conclusion).CampaignContract?)
      && (t.OfCampaign? ==>
            && t.id != "" && NamesNext(before, a.conclusion) == CampaignContract(t.id)
            && !NextConfirmed(before, a.conclusion))
  {
    UncertainExactly(PreviousOf(before), u);
    PostsOnlyAfterClaimableRead(PreviousOf(before), u);
    hide Read, FirstOpen, Settled;
  }

  /** The run that made an attempt concludes, and the account can be admitted again. */
  lemma ConcludeTry(cal: Calendar, w: World, i: string, u: Upstream, now: int)
    returns (steps: seq<Step>)
    requires Good(cal, w) && Enabled(cal, w, Try(i, u)) && u.ended <= cal(now)
    ensures Legal(cal, Next(cal, w, Try(i, u)), steps)
    ensures var before := w.runs[i].before;
      var after := Play(cal, Next(cal, w, Try(i, u)), steps);
      && after.log == w.log + Events(i, before, u) && Visitable(cal, after, i, now)
      && i in after.records && Concluded(after.records[i], before, Run(PreviousOf(before), u).conclusion)
  {
    var w1 := Next(cal, w, Try(i, u));
    var before := w.runs[i].before;
    TryStays(cal, w, i, u);
    steps := EndVisit(cal, w1, i, now);
    hide Run, Events, Next, Enabled, Good, Legal, Play, Outcome, Concluded;
    OutcomeConcludes(AtIndex(w1.records, i), before, Run(PreviousOf(before), u).conclusion, now, w1.auto, cal);
  }

  lemma TryStays(cal: Calendar, w: World, i: string, u: Upstream)
    requires Good(cal, w) && Enabled(cal, w, Try(i, u))
    ensures var w1 := Next(cal, w, Try(i, u));
      && i in w1.runs && w1.runs[i] == Attempted(w.runs[i].before, Run(PreviousOf(w.runs[i].before), u).conclusion)
      && w1.today == u.ended && w1.log == w.log + Events(i, w.runs[i].before, u) && !Blank(i)
  {
    hide Run, Events, ClaimsOk, BudgetOk, QuietOk, TableOk, DaysOk;
    assert PhaseOk(w.log, i, w.runs[i]);
  }

  /** One more POST of the account makes a log in which it posts before t was found. */
  lemma UnfoundFromLog(log: seq<Event>, i: string, t: Target, holdable: bool, between: seq<Event>, last: Event)
    requires Found(i, t) !in between && last.Posted? && last.index == i
    ensures var all := log + [Posted(i, t, false, holdable)] + between + [last];
      PostedUnfound(all, |log|, i, t) && (last.target == t ==> RepostedBlindly(all, |log|, i, t))
  {
    var all := log + [Posted(i, t, false, holdable)] + between + [last];
    var q := |log| + 1 + |between|;
    forall k | |log| < k < q ensures all[k] != Found(i, t) {
      assert all[k] == between[k - |log| - 1];
    }
    assert PostsUnfound(all, |log|, q, i, t);
  }

  /** A free account posts again for a claim of the day: after a rejected claim of another campaign,
      which clears an earlier confirmation. */
  lemma FreeAccountPostsDaily(cal: Calendar, w: World, i: string, now: int)
    returns (steps: seq<Step>, between: seq<Event>, holdable: bool)
    requires Visitable(cal, w, i, now) && i in w.records && !w.records[i].confirmOnly
    ensures Legal(cal, w, steps)
    ensures Play(cal, w, steps).log == w.log + between + [Posted(i, OfDay(cal(now)), false, holdable)]
    ensures forall e | e in between :: !e.Found?
  {
    hide Legal, Play, Visitable;
    var other := w.records[i].campaignId + "'";
    var first := VisitOffering(cal, w, i, now, other, REJECTED);
    var w1 := Play(cal, w, first);
    var second := VisitDaily(cal, w1, i, now, ReadFailed(true));
    PlayAppend(cal, w, first, second);
    steps := first + second;
    between, holdable := [Posted(i, OfCampaign(other), true, true)], w1.records[i].legacy;
  }

  /** A read-only account that names a campaign posts for the day's check-in after a listing showed
      that campaign. */
  lemma CampaignAccountPostsDaily(cal: Calendar, w: World, i: string, now: int)
    returns (steps: seq<Step>, holdable: bool)
    requires Visitable(cal, w, i, now)
    requires i in w.records && w.records[i].confirmOnly && Names(w.records[i]).CampaignContract?
    ensures Legal(cal, w, steps)
    ensures Play(cal, w, steps).log
      == w.log + [Found(i, OfCampaign(w.records[i].campaignId))] + [Posted(i, OfDay(cal(now)), false, holdable)]
  {
    hide Legal, Play, Visitable;
    var first := VisitShowing(cal, w, i, now);
    var w1 := Play(cal, w, first);
    var second := VisitDaily(cal, w1, i, now, ReadFailed(true));
    PlayAppend(cal, w, first, second);
    steps := first + second;
    holdable := w1.records[i].legacy;
  }

  /** An unheld POST of the day it is still, or of a campaign, is repeated by some legal
      continuation. */
  lemma UnheldIsReposted(cal: Calendar, w: World, i: string, u: Upstream, now: int)
    returns (steps: seq<Step>)
    requires Good(cal, w) && Enabled(cal, w, Try(i, u)) && cal(now) == u.ended
    requires LeavesOpen(w.runs[i].before, u) && !Holdable(w.runs[i].before, u, PostOf(w.runs[i].before, u))
    requires PostOf(w.runs[i].before, u).target.OfCampaign? || u.posted == u.ended
    ensures LeadsToRepost(cal, Next(cal, w, Try(i, u)), steps, |w.log|, i, PostOf(w.runs[i].before, u).target)
  {
    var w1 := Next(cal, w, Try(i, u));
    var before := w.runs[i].before;
    var t := PostOf(before, u).target;
    UnheldEvents(i, before, u);
    var first := ConcludeTry(cal, w, i, u, now);
    var more, between, holdable := PostsSameAgain(cal, Play(cal, w1, first), i, now, before, u);
    hide *;
    PlayAppend(cal, w1, first, more);
    UnfoundFromLog(w.log, i, t, false, between, Posted(i, t, false, holdable));
    steps := first + more;
    RepostFromLog(cal, w1, steps, |w.log|, i, t);
  }

  lemma RepostFromLog(cal: Calendar, w: World, steps: seq<Step>, p: nat, i: string, t: Target)
    requires Legal(cal, w, steps) && RepostedBlindly(Play(cal, w, steps).log, p, i, t)
    ensures LeadsToRepost(cal, w, steps, p, i, t)
  {
  }

  lemma UnheldEvents(i: string, before: Record, u: Upstream)
    requires LeavesOpen(before, u) && !Holdable(before, u, PostOf(before, u))
    ensures Events(i, before, u) == [Posted(i, PostOf(before, u).target, false, false)]
  {
    UnheldParts(before, u);
    hide Run, Settled, Holdable, ReadFinds;
  }

  /** After an unheld POST was concluded, the account posts for the same claim again. */
  lemma PostsSameAgain(cal: Calendar, w: World, i: string, now: int, before: Record, u: Upstream)
    returns (steps: seq<Step>, between: seq<Event>, holdable: bool)
    requires Visitable(cal, w, i, now) && cal(now) == u.ended && i in w.records
    requires LeavesOpen(before, u) && !Holdable(before, u, PostOf(before, u))
    requires Concluded(w.records[i], before, Run(PreviousOf(before), u).conclusion)
    requires PostOf(before, u).target.OfCampaign? || u.posted == u.ended
    ensures Legal(cal, w, steps)
    ensures Play(cal, w, steps).log == w.log + between + [Posted(i, PostOf(before, u).target, false, holdable)]
    ensures Found(i, PostOf(before, u).target) !in between
  {
    var t := PostOf(before, u).target;
    UnheldParts(before, u);
    ClaimDays(PreviousOf(before), u);
    hide Legal, Play, Visitable, Run, Holdable, Settled, NextConfirmOnly, NextConfirmed, NamesNext;
    if t.OfCampaign? {
      between, holdable := [], true;
      steps := VisitOffering(cal, w, i, now, t.id, PostNothing);
      assert w.log + [] == w.log;
    } else if w.records[i].confirmOnly {
      between := [Found(i, OfCampaign(w.records[i].campaignId))];
      steps, holdable := CampaignAccountPostsDaily(cal, w, i, now);
    } else {
      steps, between, holdable := FreeAccountPostsDaily(cal, w, i, now);
    }
  }

  // ----- what holds in every continuation

  /** The log after an attempt and any continuation, with the attempt's POST in its place. */
  lemma ContinuedLog(cal: Calendar, w: World, i: string, u: Upstream, steps: seq<Step>)
    requires Good(cal, w) && Enabled(cal, w, Try(i, u)) && Legal(cal, Next(cal, w, Try(i, u)), steps)
    requires LeavesOpen(w.runs[i].before, u)
    ensures var log := Play(cal, Next(cal, w, Try(i, u)), steps).log;
      var post := PostOf(w.runs[i].before, u);
      && w.log + Events(i, w.runs[i].before, u) <= log && NoBlind(log) && DaysAscend(log)
      && |w.log| < |log| && log[|w.log|] == Posted(i, post.target, false, Holdable(w.runs[i].before, u, post))
  {
    var w1 := Next(cal, w, Try(i, u));
    TryStays(cal, w, i, u);
    assert w1.log[|w.log|] == Events(i, w.runs[i].before, u)[0];
    hide Events, Next, Enabled, Legal, Play;
    StepIsGood(cal, w, Try(i, u));
    EveryRunIsGood(cal, w1, steps);
    LogGrows(cal, w1, steps);
    GoodLog(cal, Play(cal, w1, steps));
    hide Run, Settled, Holdable, Good, NoBlind, DaysAscend;
  }

  lemma GoodLog(cal: Calendar, w: World)
    requires Good(cal, w)
    ensures NoBlind(w.log) && DaysAscend(w.log)
  {
    hide TableOk, BudgetOk, QuietOk, EvidenceOk, NoBlind, DaysAscend;
  }

  lemma StepIsGood(cal: Calendar, w: World, step: Step)
    requires Good(cal, w) && Enabled(cal, w, step)
    ensures Good(cal, Next(cal, w, step))
  {
    hide TableOk, ClaimsOk, EvidenceOk, DaysOk, BudgetOk, QuietOk, Enabled, Next;
    KeepsTable(cal, w, step);
    KeepsClaims(cal, w, step);
    KeepsEvidence(cal, w, step);
    KeepsDays(cal, w, step);
    KeepsBudget(cal, w, step);
    KeepsQuiet(cal, w, step);
  }

  /** A held POST is not made again for the same claim, and a campaign's not followed by any other,
      before its claim was found. */
  lemma HeldIsNotReposted(cal: Calendar, w: World, i: string, u: Upstream, steps: seq<Step>)
    requires Good(cal, w) && Enabled(cal, w, Try(i, u)) && Legal(cal, Next(cal, w, Try(i, u)), steps)
    requires LeavesOpen(w.runs[i].before, u) && Holdable(w.runs[i].before, u, PostOf(w.runs[i].before, u))
    ensures var t := PostOf(w.runs[i].before, u).target;
      && !LeadsToRepost(cal, Next(cal, w, Try(i, u)), steps, |w.log|, i, t)
      && (t.OfCampaign? ==> !LeadsToPost(cal, Next(cal, w, Try(i, u)), steps, |w.log|, i, t))
  {
    var t := PostOf(w.runs[i].before, u).target;
    ContinuedLog(cal, w, i, u, steps);
    var log := Play(cal, Next(cal, w, Try(i, u)), steps).log;
    hide Run, Events, Next, Enabled, Legal, Play, Settled, Holdable, NoBlind, DaysAscend, Good;
    forall q | |w.log| < q < |log| && (t.OfCampaign? || (log[q].Posted? && log[q].target == t))
      ensures !PostsUnfound(log, |w.log|, q, i, t)
    {
      if log[q].Posted? && log[q].index == i {
        FoundSameBetween(log, i, t, |w.log|, q);
      }
    }
  }

  /** From here on the account can only post for that day or a later one. */
  ghost predicate Beyond(w: World, i: string, day: int) {
    && day <= w.today
    && (i in w.runs && w.runs[i].Running? && w.runs[i].before.day.Some? ==> day <= w.runs[i].before.day.value)
  }

  ghost predicate PostsFrom(e: Event, i: string, day: int) {
    e.Posted? && e.index == i && e.target.OfDay? ==> day <= e.target.day
  }

  lemma BeyondStep(cal: Calendar, w: World, step: Step, i: string, day: int)
    requires Beyond(w, i, day) && Enabled(cal, w, step)
    ensures Beyond(Next(cal, w, step), i, day)
    ensures var log := Next(cal, w, step).log;
      w.log <= log && forall q | |w.log| <= q < |log| :: PostsFrom(log[q], i, day)
  {
    NextGrows(cal, w, step);
    if step.Admit? {
      AdmitNext(cal, w, step);
      TakenDay(AtIndex(w.records, step.index), cal(step.now), step.id, step.source, step.now);
      hide Next, Enabled, Reserve, TableAdmits, Taken, ForDay, Refused;
    } else if step.Try? {
      ClaimDays(PreviousOf(w.runs[step.index].before), step.u);
      hide Run, Settled, Holdable, ReadFinds;
    } else {
      hide Run, Events, Finish, Reserve, Displaces;
    }
  }

  lemma {:induction false} LaterPosts(cal: Calendar, w: World, steps: seq<Step>, i: string, day: int)
    requires Beyond(w, i, day) && Legal(cal, w, steps)
    ensures var log := Play(cal, w, steps).log;
      w.log <= log && forall q | |w.log| <= q < |log| :: PostsFrom(log[q], i, day)
    decreases |steps|
  {
    if steps != [] {
      BeyondStep(cal, w, steps[0], i, day);
      hide Enabled, Next, Beyond, PostsFrom;
      LaterPosts(cal, Next(cal, w, steps[0]), steps[1..], i, day);
    }
  }

  /** Once the day of a legacy POST is over, its check-in is never posted for again. */
  lemma PastDayIsNotReposted(cal: Calendar, w: World, i: string, u: Upstream, steps: seq<Step>)
    requires Good(cal, w) && Enabled(cal, w, Try(i, u)) && Legal(cal, Next(cal, w, Try(i, u)), steps)
    requires LeavesOpen(w.runs[i].before, u) && PostOf(w.runs[i].before, u).target.OfDay? && u.posted < u.ended
    ensures !LeadsToRepost(cal, Next(cal, w, Try(i, u)), steps, |w.log|, i, PostOf(w.runs[i].before, u).target)
  {
    hide Run, Next, Legal, Play, Settled, Holdable, Good;
    var w1 := Next(cal, w, Try(i, u));
    var t := PostOf(w.runs[i].before, u).target;
    ClaimDays(PreviousOf(w.runs[i].before), u);
    TryStays(cal, w, i, u);
    OnePost(i, w.runs[i].before, u);
    LaterPosts(cal, w1, steps, i, u.ended);
    hide Events, Enabled;
    var log := Play(cal, w1, steps).log;
    forall q | |w.log| < q < |log| && log[q].Posted? && log[q].index == i ensures log[q].target != t {
      if q >= |w1.log| {
        assert PostsFrom(log[q], i, u.ended);
      }
    }
  }

  lemma OnePost(i: string, before: Record, u: Upstream)
    requires Run(PreviousOf(before), u).post.Some?
    ensures var es := Events(i, before, u);
      && 1 <= |es| <= 2 && es[0].Posted? && (forall k | 1 <= k < |es| :: es[k].Found?)
      && (FindsOwn(before, u) <==> |es| == 2 && es[1] == Found(i, PostOf(before, u).target))
  {
    hide Run, Settled, Holdable, ReadFinds;
  }

  /** Main theorem: in every reachable world, an open POST can be followed by another one for the
      same claim, before a read found it, if and only if it is not holdable and, when it is a
      legacy one, its day is not over. */
  lemma RepostExactly(cal: Calendar, w: World, i: string, u: Upstream, now: int)
    requires Good(cal, w) && Enabled(cal, w, Try(i, u)) && LeavesOpen(w.runs[i].before, u) && cal(now) == u.ended
    ensures var post := PostOf(w.runs[i].before, u);
      (exists steps :: LeadsToRepost(cal, Next(cal, w, Try(i, u)), steps, |w.log|, i, post.target))
      <==> !Holdable(w.runs[i].before, u, post) && (post.target.OfCampaign? || u.posted == u.ended)
  {
    var before := w.runs[i].before;
    var post := PostOf(before, u);
    assert u.posted <= u.ended;
    hide Good, Run, Next, Enabled, Holdable, Settled, RepostedBlindly, Play;
    if Holdable(before, u, post) || (post.target.OfDay? && u.posted < u.ended) {
      forall steps | Legal(cal, Next(cal, w, Try(i, u)), steps)
        ensures !LeadsToRepost(cal, Next(cal, w, Try(i, u)), steps, |w.log|, i, post.target)
      {
        if Holdable(before, u, post) {
          HeldIsNotReposted(cal, w, i, u, steps);
        } else {
          PastDayIsNotReposted(cal, w, i, u, steps);
        }
      }
    } else {
      var steps := UnheldIsReposted(cal, w, i, u, now);
    }
  }

  // ----- posting for anything before the claim was found

  /** On a later day the account posts for some campaign: at once when it is free, otherwise after
      that day's reads showed a claim under the contract its record names. */
  lemma PostsSomething(cal: Calendar, w: World, i: string, later: int)
    returns (steps: seq<Step>, between: seq<Event>, last: Event)
    requires Visitable(cal, w, i, later) && i in w.records
    ensures Legal(cal, w, steps) && last.Posted? && last.index == i
    ensures Play(cal, w, steps).log == w.log + between + [last]
    ensures between == if w.records[i].confirmOnly then [Found(i, TargetOn(Names(w.records[i]), cal(later)))] else []
  {
    hide Legal, Play, Visitable;
    if w.records[i].confirmOnly {
      var first := VisitShowing(cal, w, i, later);
      var w1 := Play(cal, w, first);
      var other := w1.records[i].campaignId + "'";
      var second := VisitOffering(cal, w1, i, later, other, PostNothing);
      PlayAppend(cal, w, first, second);
      steps, between := first + second, [Found(i, TargetOn(Names(w.records[i]), cal(later)))];
      last := Posted(i, OfCampaign(other), false, true);
    } else {
      var other := w.records[i].campaignId + "'";
      steps := VisitOffering(cal, w, i, later, other, PostNothing);
      between, last := [], Posted(i, OfCampaign(other), false, true);
      assert w.log + [] == w.log;
    }
  }

  /** What the record names after an open POST, when it is read-only, is not the POST's claim on a
      later day. */
  lemma NamesOtherClaim(before: Record, u: Upstream, after: Record, day: int)
    requires LeavesOpen(before, u) && !FindsOwn(before, u) && u.posted < day
    requires PostOf(before, u).target.OfDay? || !Holdable(before, u, PostOf(before, u))
    requires Concluded(after, before, Run(PreviousOf(before), u).conclusion)
    ensures after.confirmOnly ==> TargetOn(Names(after), day) != PostOf(before, u).target
  {
    ClaimDays(PreviousOf(before), u);
    if !Holdable(before, u, PostOf(before, u)) {
      UnheldParts(before, u);
    }
    hide Run, Holdable, Settled, ReadFinds, NextConfirmOnly, NextConfirmed, NamesNext;
  }

  lemma UnfoundIsPosted(cal: Calendar, w: World, i: string, u: Upstream, later: int)
    returns (steps: seq<Step>)
    requires Good(cal, w) && Enabled(cal, w, Try(i, u)) && u.posted < cal(later) && u.ended <= cal(later)
    requires LeavesOpen(w.runs[i].before, u) && !FindsOwn(w.runs[i].before, u)
    requires PostOf(w.runs[i].before, u).target.OfDay? || !Holdable(w.runs[i].before, u, PostOf(w.runs[i].before, u))
    ensures LeadsToPost(cal, Next(cal, w, Try(i, u)), steps, |w.log|, i, PostOf(w.runs[i].before, u).target)
  {
    var post := PostOf(w.runs[i].before, u);
    var held := Holdable(w.runs[i].before, u, post);
    var first, found := AfterOpenPost(cal, w, i, u, later);
    hide *;
    steps := PostsAfter(cal, w.log, Next(cal, w, Try(i, u)), first, i, post.target, held, found, later);
  }

  /** From a log with an open POST and nothing of its claim found, on to the next POST. */
  lemma PostsAfter(cal: Calendar, log: seq<Event>, w: World, first: seq<Step>, i: string, t: Target, held: bool,
                   found: seq<Event>, later: int)
    returns (steps: seq<Step>)
    requires Legal(cal, w, first)
    requires var after := Play(cal, w, first);
      && after.log == log + [Posted(i, t, false, held)] + found
      && Found(i, t) !in found && Visitable(cal, after, i, later) && i in after.records
      && (after.records[i].confirmOnly ==> TargetOn(Names(after.records[i]), cal(later)) != t)
    ensures LeadsToPost(cal, w, steps, |log|, i, t)
  {
    hide *;
    var more, between, last := PostsSomething(cal, Play(cal, w, first), i, later);
    PlayAppend(cal, w, first, more);
    UnfoundFromLog(log, i, t, held, found + between, last);
    steps := first + more;
    var mid := log + [Posted(i, t, false, held)];
    assert mid + found + between + [last] == mid + (found + between) + [last];
    PostFromLog(cal, w, steps, |log|, i, t);
  }

  /** The run of an open POST concludes; what was found is not its claim, and what its record names,
      if it is read-only, will not be on that later day. */
  lemma AfterOpenPost(cal: Calendar, w: World, i: string, u: Upstream, later: int)
    returns (steps: seq<Step>, found: seq<Event>)
    requires Good(cal, w) && Enabled(cal, w, Try(i, u)) && u.posted < cal(later) && u.ended <= cal(later)
    requires LeavesOpen(w.runs[i].before, u) && !FindsOwn(w.runs[i].before, u)
    requires PostOf(w.runs[i].before, u).target.OfDay? || !Holdable(w.runs[i].before, u, PostOf(w.runs[i].before, u))
    ensures Legal(cal, Next(cal, w, Try(i, u)), steps)
    ensures var post := PostOf(w.runs[i].before, u);
      var after := Play(cal, Next(cal, w, Try(i, u)), steps);
      && after.log == w.log + [Posted(i, post.target, false, Holdable(w.runs[i].before, u, post))] + found
      && Found(i, post.target) !in found && Visitable(cal, after, i, later) && i in after.records
      && (after.records[i].confirmOnly ==> TargetOn(Names(after.records[i]), cal(later)) != post.target)
  {
    hide Run, Next, Play, Legal, Events, Good, Settled, Holdable;
    var before := w.runs[i].before;
    var posted := Posted(i, PostOf(before, u).target, false, Holdable(before, u, PostOf(before, u)));
    hide *;
    OnePostOpen(i, before, u);
    found := Events(i, before, u)[1..];
    assert w.log + Events(i, before, u) == w.log + [posted] + found;
    steps := ConcludeTry(cal, w, i, u, later);
    NamesOtherClaim(before, u, Play(cal, Next(cal, w, Try(i, u)), steps).records[i], cal(later));
  }

  lemma OnePostOpen(i: string, before: Record, u: Upstream)
    requires LeavesOpen(before, u) && !FindsOwn(before, u)
    ensures var es := Events(i, before, u);
      && es != []
      && es == [Posted(i, PostOf(before, u).target, false, Holdable(before, u, PostOf(before, u)))] + es[1..]
      && Found(i, PostOf(before, u).target) !in es[1..]
  {
    OnePost(i, before, u);
    hide Run, Settled, Holdable, ReadFinds;
  }

  lemma PostFromLog(cal: Calendar, w: World, steps: seq<Step>, p: nat, i: string, t: Target)
    requires Legal(cal, w, steps) && PostedUnfound(Play(cal, w, steps).log, p, i, t)
    ensures LeadsToPost(cal, w, steps, p, i, t)
  {
  }

  /** A POST whose own confirming read found its claim is followed by nothing unfound. */
  lemma FoundAtOnce(cal: Calendar, w: World, i: string, u: Upstream, steps: seq<Step>)
    requires Good(cal, w) && Enabled(cal, w, Try(i, u)) && Legal(cal, Next(cal, w, Try(i, u)), steps)
    requires LeavesOpen(w.runs[i].before, u) && FindsOwn(w.runs[i].before, u)
    ensures !LeadsToPost(cal, Next(cal, w, Try(i, u)), steps, |w.log|, i, PostOf(w.runs[i].before, u).target)
  {
    var t := PostOf(w.runs[i].before, u).target;
    var es := Events(i, w.runs[i].before, u);
    OnePost(i, w.runs[i].before, u);
    ContinuedLog(cal, w, i, u, steps);
    var log := Play(cal, Next(cal, w, Try(i, u)), steps).log;
    assert (w.log + es)[|w.log| + 1] == Found(i, t);
    assert log[|w.log| + 1] == Found(i, t);
    hide Run, Events, Next, Enabled, Legal, Play, Settled, Holdable, NoBlind, DaysAscend, Good;
  }

  /** Main theorem: in every reachable world, an open POST can be followed by a POST of any kind
      before its claim was found if and only if its own confirming read did not find it and it is a
      legacy one, for which another day's check-in may pass, or not holdable. */
  lemma PostUnfoundExactly(cal: Calendar, w: World, i: string, u: Upstream, later: int)
    requires Good(cal, w) && Enabled(cal, w, Try(i, u)) && LeavesOpen(w.runs[i].before, u)
    requires u.posted < cal(later) && u.ended <= cal(later)
    ensures var before := w.runs[i].before;
      var post := PostOf(before, u);
      (exists steps :: LeadsToPost(cal, Next(cal, w, Try(i, u)), steps, |w.log|, i, post.target))
      <==> !FindsOwn(before, u) && (post.target.OfDay? || !Holdable(before, u, post))
  {
    var before := w.runs[i].before;
    var post := PostOf(before, u);
    hide Good, Run, Next, Enabled, Holdable, Settled, PostedUnfound, Play, FindsOwn;
    if !FindsOwn(before, u) && (post.target.OfDay? || !Holdable(before, u, post)) {
      var steps := UnfoundIsPosted(cal, w, i, u, later);
    } else {
      forall steps | Legal(cal, Next(cal, w, Try(i, u)), steps)
        ensures !LeadsToPost(cal, Next(cal, w, Try(i, u)), steps, |w.log|, i, post.target)
      {
        if FindsOwn(before, u) {
          FoundAtOnce(cal, w, i, u, steps);
        } else {
          HeldIsNotReposted(cal, w, i, u, steps);
        }
      }
    }
  }
}
