/** The account cache: snapshots read at different times are merged by compare-and-swap, so
    that an older read never wipes a newer confirmation, balance or plan. Times are integers
    with 0 as the unset time; days come from a calendar function. */
module AccountCache {
  import opened Collections

  type Calendar = int -> int

  datatype Checkin = Checkin(today: bool, id: int)

  datatype Entry = Entry(checkin: Option<Checkin>, credits: Option<int>, plan: string, fetched: nat, checkinAt: nat,
                         checkinFetched: nat, creditsFetched: nat, planFetched: nat, confirmedAt: nat)

  /** A snapshot carries the same fields; unset times mean the field was not read. invalidate
      marks an explicit authentication rejection. */
  datatype Snapshot = Snapshot(fields: Entry, invalidate: bool)

  const EMPTY := Entry(None, None, "", 0, 0, 0, 0, 0, 0)

  /** A confirmation of today stands against a read that does not show today's check-in. */
  predicate KeepConfirmed(e: Entry, s: Snapshot, today: int, cal: Calendar) {
    && !s.invalidate
    && e.checkin.Some? && e.checkin.value.today && e.confirmedAt != 0 && cal(e.confirmedAt) == today
    && (s.fields.checkin.None? || !s.fields.checkin.value.today)
  }

  predicate TakesCheckin(e: Entry, s: Snapshot, today: int, cal: Calendar) {
    s.fields.checkinFetched != 0 && s.fields.checkinFetched >= e.checkinFetched && !KeepConfirmed(e, s, today, cal)
  }

  predicate TakesCredits(e: Entry, s: Snapshot) {
    && s.fields.creditsFetched != 0 && s.fields.creditsFetched >= e.creditsFetched
    && s.fields.creditsFetched >= Later(e.checkinAt, s.fields.checkinAt)
  }

  predicate TakesPlan(e: Entry, s: Snapshot) {
    s.fields.planFetched != 0 && s.fields.planFetched >= e.planFetched
  }

  function Later(a: nat, b: nat): nat {
    if b > a then b else a
  }

  /** One committed merge. */
  function Merge(e: Entry, s: Snapshot, today: int, cal: Calendar): Entry {
    var f := s.fields;
    var confirmedAt := Later(e.confirmedAt, f.confirmedAt);
    var e1 := e.(checkinAt := Later(e.checkinAt, f.checkinAt), confirmedAt := confirmedAt);
    var taken := TakesCheckin(e1, s, today, cal);
    Entry(
      if taken then f.checkin else e.checkin,
      if TakesCredits(e, s) then f.credits else e.credits,
      if TakesPlan(e, s) then f.plan else e.plan,
      if s.invalidate then 0 else if f.fetched > e.fetched && f.fetched >= e1.checkinAt then f.fetched else e.fetched,
      e1.checkinAt,
      if taken then f.checkinFetched else e.checkinFetched,
      if TakesCredits(e, s) then f.creditsFetched else e.creditsFetched,
      if TakesPlan(e, s) then f.planFetched else e.planFetched,
      if taken && s.invalidate then 0 else confirmedAt)
  }

  /** One merge with the day on which it was committed. */
  datatype Commit = Commit(snapshot: Snapshot, today: int)

  function MergeAll(e: Entry, cs: seq<Commit>, cal: Calendar): Entry {
    if cs == [] then e else Merge(MergeAll(e, cs[..|cs| - 1], cal), cs[|cs| - 1].snapshot, cs[|cs| - 1].today, cal)
  }

  /** What a successful check-in at now commits: its time, and the summary when there is one. */
  function Confirmation(ci: Option<Checkin>, now: nat): Snapshot {
    var e := EMPTY.(checkinAt := now, confirmedAt := now);
    Snapshot(if ci.Some? then e.(checkin := ci, checkinFetched := now) else e, false)
  }

  class Cache {
    var entries: map<string, Entry>

    constructor ()
      ensures entries == map[]
    {
      entries := map[];
    }

    ghost function At(id: string): Entry
      reads this
    {
      if id in entries then entries[id] else EMPTY
    }

    /** The compare-and-swap loop. Each failed swap is caused by a rival commit on the same
        account, so the result is the merge after all of them. */
    method Store(id: string, s: Snapshot, rivals: seq<Commit>, today: int, cal: Calendar) returns (merged: Entry)
      modifies this
      ensures merged == Merge(MergeAll(old(At(id)), rivals, cal), s, today, cal)
      ensures entries == old(entries)[id := merged]
    {
      var tries := 0;
      merged := EMPTY;
      while true
        invariant 0 <= tries <= |rivals|
        invariant At(id) == MergeAll(old(At(id)), rivals[..tries], cal)
        invariant entries == old(entries) || entries == old(entries)[id := At(id)]
        invariant tries == 0 ==> entries == old(entries)
        decreases |rivals| - tries
      {
        var seen := if id in entries then entries[id] else EMPTY;
        var next := Combine(seen, s, today, cal);
        if tries == |rivals| {
          assert rivals[..tries] == rivals;
          entries := entries[id := next];
          return next;
        }
        var rival := rivals[tries];
        assert rivals[..tries + 1][..tries] == rivals[..tries];
        entries := entries[id := Merge(seen, rival.snapshot, rival.today, cal)];
        tries := tries + 1;
      }
    }

    method StoreConfirmation(id: string, ci: Option<Checkin>, now: nat, rivals: seq<Commit>, today: int, cal: Calendar)
      modifies this
      ensures id == "" ==> entries == old(entries)
      ensures id != "" ==>
        var e := MergeAll(old(At(id)), rivals, cal);
        entries == old(entries)[id := Merge(e, Confirmation(ci, now), today, cal)]
    {
      if id == "" { return; }
      var snapshot := EMPTY.(checkinAt := now, confirmedAt := now);
      if ci.Some? { snapshot := snapshot.(checkin := ci, checkinFetched := now); }
      var _ := Store(id, Snapshot(snapshot, false), rivals, today, cal);
    }
  }

  /** Builds the next entry field by field. */
  method Combine(e: Entry, s: Snapshot, today: int, cal: Calendar) returns (next: Entry)
    ensures next == Merge(e, s, today, cal)
  {
    var f := s.fields;
    next := e;
    if f.checkinAt > next.checkinAt { next := next.(checkinAt := f.checkinAt); }
    if f.confirmedAt > next.confirmedAt { next := next.(confirmedAt := f.confirmedAt); }
    if f.checkinFetched != 0 && f.checkinFetched >= next.checkinFetched {
      if !KeepConfirmed(next, s, today, cal) {
        next := next.(checkin := f.checkin, checkinFetched := f.checkinFetched);
        if s.invalidate { next := next.(confirmedAt := 0); }
      }
    }
    if f.creditsFetched != 0 && f.creditsFetched >= next.creditsFetched && f.creditsFetched >= next.checkinAt {
      next := next.(credits := f.credits, creditsFetched := f.creditsFetched);
    }
    if f.planFetched != 0 && f.planFetched >= next.planFetched {
      next := next.(plan := f.plan, planFetched := f.planFetched);
    }
    if s.invalidate {
      next := next.(fetched := 0);
    } else if f.fetched > next.fetched && f.fetched >= next.checkinAt {
      next := next.(fetched := f.fetched);
    }
  }

  // ----- what one commit shows

  /** Each part of the entry comes from the snapshot exactly when the snapshot read it, not before the
      part that is cached, and for the check-in and the balance nothing better is known: a check-in
      confirmed today stands against a read that does not show it unless the login was rejected, and
      a balance read before the latest check-in is not shown. */
  lemma MergeShows(e: Entry, s: Snapshot, today: int, cal: Calendar)
    ensures var f, r := s.fields, Merge(e, s, today, cal);
      var confirmed := if f.confirmedAt > e.confirmedAt then f.confirmedAt else e.confirmedAt;
      var checkin := if f.checkinAt > e.checkinAt then f.checkinAt else e.checkinAt;
      var stands :=
        && !s.invalidate && confirmed != 0 && cal(confirmed) == today
        && e.checkin.Some? && e.checkin.value.today && (f.checkin.Some? ==> !f.checkin.value.today);
      && (if f.checkinFetched > 0 && e.checkinFetched <= f.checkinFetched && !stands
          then r.checkin == f.checkin && r.checkinFetched == f.checkinFetched
          else r.checkin == e.checkin && r.checkinFetched == e.checkinFetched)
      && (if f.creditsFetched > 0 && e.creditsFetched <= f.creditsFetched && checkin <= f.creditsFetched
          then r.credits == f.credits && r.creditsFetched == f.creditsFetched
          else r.credits == e.credits && r.creditsFetched == e.creditsFetched)
      && (if f.planFetched > 0 && e.planFetched <= f.planFetched
          then r.plan == f.plan && r.planFetched == f.planFetched
          else r.plan == e.plan && r.planFetched == e.planFetched)
      && r.checkinAt == checkin
      && r.confirmedAt == (if s.invalidate && f.checkinFetched > 0 && e.checkinFetched <= f.checkinFetched then 0
                           else confirmed)
      && r.fetched == (if s.invalidate then 0
                       else if f.fetched > e.fetched && checkin <= f.fetched then f.fetched else e.fetched)
  {
  }

  /** Of an account not cached yet, everything the snapshot read is shown, but for a balance read
      before the check-in it reports, and nothing else. */
  lemma FirstCommitShows(s: Snapshot, today: int, cal: Calendar)
    ensures var f, r := s.fields, Merge(EMPTY, s, today, cal);
      && r.checkin == (if f.checkinFetched > 0 then f.checkin else None)
      && r.credits == (if f.creditsFetched > 0 && f.checkinAt <= f.creditsFetched then f.credits else None)
      && r.plan == (if f.planFetched > 0 then f.plan else "")
      && r.fetched == (if !s.invalidate && f.checkinAt <= f.fetched then f.fetched else 0)
      && r.checkinAt == f.checkinAt
      && r.confirmedAt == (if s.invalidate && f.checkinFetched > 0 then 0 else f.confirmedAt)
  {
  }

  /** A confirmed check-in is recorded at its time, whatever is cached, and shown at once when it is
      reported with its summary; balance, plan and the time of the last full read stay. */
  lemma ConfirmationIsShown(e: Entry, ci: Option<Checkin>, now: nat, today: int, cal: Calendar)
    requires now > 0
    ensures var r := Merge(e, Confirmation(ci, now), today, cal);
      && r.checkinAt >= now && r.confirmedAt >= now && (e.confirmedAt <= now ==> r.confirmedAt == now)
      && r.credits == e.credits && r.creditsFetched == e.creditsFetched
      && r.plan == e.plan && r.planFetched == e.planFetched && r.fetched == e.fetched
      && (ci.None? ==> r.checkin == e.checkin && r.checkinFetched == e.checkinFetched)
      && (ci.Some? && ci.value.today && e.checkinFetched <= now ==> r.checkin == ci && r.checkinFetched == now)
  {
  }

  // ----- laws over every interleaving of commits

  /** No timestamp of what is cached ever goes back. */
  lemma {:induction false} TimesNeverGoBack(e: Entry, cs: seq<Commit>, cal: Calendar)
    ensures var r := MergeAll(e, cs, cal);
      && r.checkinAt >= e.checkinAt && r.checkinFetched >= e.checkinFetched
      && r.creditsFetched >= e.creditsFetched && r.planFetched >= e.planFetched
  {
    if cs != [] {
      TimesNeverGoBack(e, cs[..|cs| - 1], cal);
    }
  }

  /** Once a check-in at time t is committed, whatever follows, the credits shown are still the
      ones shown then or come from a read begun at or after t. */
  lemma {:induction false} CreditsFollowCheckin(e: Entry, cs: seq<Commit>, cal: Calendar)
    ensures var r := MergeAll(e, cs, cal);
      (r.credits == e.credits && r.creditsFetched == e.creditsFetched)
      || exists k :: 0 <= k < |cs| && cs[k].snapshot.fields.creditsFetched >= e.checkinAt
           && r.credits == cs[k].snapshot.fields.credits && r.creditsFetched == cs[k].snapshot.fields.creditsFetched
  {
    if cs != [] {
      var init := cs[..|cs| - 1];
      CreditsFollowCheckin(e, init, cal);
      TimesNeverGoBack(e, init, cal);
      var mid := MergeAll(e, init, cal);
      var last := cs[|cs| - 1].snapshot;
      if TakesCredits(mid, last) {
        assert cs[|cs| - 1].snapshot.fields.creditsFetched >= e.checkinAt;
      } else if !(mid.credits == e.credits && mid.creditsFetched == e.creditsFetched) {
        var k :| 0 <= k < |init| && init[k].snapshot.fields.creditsFetched >= e.checkinAt
          && mid.credits == init[k].snapshot.fields.credits
          && mid.creditsFetched == init[k].snapshot.fields.creditsFetched;
        assert cs[k] == init[k];
      }
    }
  }

  ghost predicate ConfirmedToday(e: Entry, today: int, cal: Calendar) {
    e.checkin.Some? && e.checkin.value.today && e.confirmedAt != 0 && cal(e.confirmedAt) == today
  }

  ghost predicate CommittedOn(cs: seq<Commit>, today: int) {
    forall c | c in cs :: c.today == today
  }

  /** No confirmation comes from a later day than the one it is committed on. */
  ghost predicate NoFutureConfirmation(cs: seq<Commit>, cal: Calendar) {
    forall c | c in cs && c.snapshot.fields.confirmedAt != 0 :: cal(c.snapshot.fields.confirmedAt) <= c.today
  }

  ghost predicate Monotone(cal: Calendar) {
    forall s, t | s <= t :: cal(s) <= cal(t)
  }

  /** Over a day's commits, a confirmed check-in is displaced by an unconfirmed one only
      through an authentication rejection whose read is not older. */
  lemma {:induction false} ConfirmationStands(e: Entry, cs: seq<Commit>, today: int, cal: Calendar)
    requires ConfirmedToday(e, today, cal) && CommittedOn(cs, today) && NoFutureConfirmation(cs, cal) && Monotone(cal)
    ensures ConfirmedToday(MergeAll(e, cs, cal), today, cal)
      || exists k :: 0 <= k < |cs| && cs[k].snapshot.invalidate
                      && cs[k].snapshot.fields.checkinFetched >= e.checkinFetched
  {
    if cs != [] {
      var init := cs[..|cs| - 1];
      ConfirmationStands(e, init, today, cal);
      TimesNeverGoBack(e, init, cal);
      if ConfirmedToday(MergeAll(e, init, cal), today, cal) {
        var last := cs[|cs| - 1];
        assert last in cs;
        assert ConfirmedToday(MergeAll(e, cs, cal), today, cal)
          || (cs[|cs| - 1].snapshot.invalidate && cs[|cs| - 1].snapshot.fields.checkinFetched >= e.checkinFetched);
      } else {
        var k :| 0 <= k < |init| && init[k].snapshot.invalidate
          && init[k].snapshot.fields.checkinFetched >= e.checkinFetched;
        assert cs[k] == init[k];
      }
    }
  }

  /** Right after a confirmation of now, no balance read before now is fresh: the credits either
      predate the confirmation or the next ones shown were read at or after it. */
  lemma CreditsAfterConfirmation(e: Entry, ci: Option<Checkin>, now: nat, today: int, cs: seq<Commit>, cal: Calendar)
    ensures var confirmed := Merge(e, Confirmation(ci, now), today, cal);
      var r := MergeAll(confirmed, cs, cal);
      && confirmed.checkinAt >= now && confirmed.credits == e.credits
      && (r.credits != e.credits ==> r.creditsFetched >= now)
  {
    var confirmed := Merge(e, Confirmation(ci, now), today, cal);
    CreditsFollowCheckin(confirmed, cs, cal);
  }

  // ----- the plan is independent of the commit order

  ghost predicate DistinctPlanTimes(cs: seq<Commit>) {
    forall i, j | 0 <= i < j < |cs| && cs[i].snapshot.fields.planFetched != 0 ::
      cs[i].snapshot.fields.planFetched != cs[j].snapshot.fields.planFetched
  }

  /** The plan shown by r came from this commit. */
  ghost predicate PlanFrom(c: Commit, r: Entry) {
    && c.snapshot.fields.planFetched != 0
    && r.plan == c.snapshot.fields.plan && r.planFetched == c.snapshot.fields.planFetched
  }

  ghost predicate PlanKept(e: Entry, cs: seq<Commit>, r: Entry) {
    && r.plan == e.plan && r.planFetched == e.planFetched
    && forall c | c in cs && c.snapshot.fields.planFetched != 0 :: c.snapshot.fields.planFetched < e.planFetched
  }

  /** The plan shown is the one read last among those that supersede the cached one. */
  ghost predicate LatestPlan(e: Entry, cs: seq<Commit>, r: Entry) {
    && (forall c | c in cs :: c.snapshot.fields.planFetched <= r.planFetched)
    && r.planFetched >= e.planFetched
    && (PlanKept(e, cs, r) || exists c :: c in cs && PlanFrom(c, r))
  }

  lemma {:induction false} MergesToLatestPlan(e: Entry, cs: seq<Commit>, cal: Calendar)
    ensures LatestPlan(e, cs, MergeAll(e, cs, cal))
  {
    if cs != [] {
      var init, last := cs[..|cs| - 1], cs[|cs| - 1];
      MergesToLatestPlan(e, init, cal);
      assert cs == init + [last];
      var mid, r := MergeAll(e, init, cal), MergeAll(e, cs, cal);
      if TakesPlan(mid, last.snapshot) {
        assert last in cs && PlanFrom(last, r);
      } else if !PlanKept(e, init, mid) {
        var c :| c in init && PlanFrom(c, mid);
        assert c in cs && PlanFrom(c, r);
      }
    }
  }

  /** Committing the same snapshots in any order shows the same plan, when no two of them
      read the plan at the same time. */
  lemma PlanOrderIndependent(e: Entry, cs: seq<Commit>, ds: seq<Commit>, cal: Calendar)
    requires multiset(cs) == multiset(ds) && DistinctPlanTimes(cs)
    ensures MergeAll(e, cs, cal).plan == MergeAll(e, ds, cal).plan
    ensures MergeAll(e, cs, cal).planFetched == MergeAll(e, ds, cal).planFetched
  {
    MergesToLatestPlan(e, cs, cal);
    MergesToLatestPlan(e, ds, cal);
    assert forall c :: c in cs <==> c in multiset(cs);
    assert forall c :: c in ds <==> c in multiset(ds);
    hide MergeAll;
    var r, q := MergeAll(e, cs, cal), MergeAll(e, ds, cal);
    forall c, d | c in cs && d in cs && c.snapshot.fields.planFetched == d.snapshot.fields.planFetched != 0
      ensures c == d
    {
      var i :| 0 <= i < |cs| && cs[i] == c;
      var j :| 0 <= j < |cs| && cs[j] == d;
    }
  }

  /** The credits half has no such law: a check-in blocks an older read only if it was
      committed first. */
  lemma CreditsOrderMatters(cal: Calendar)
    ensures exists s, t: Snapshot, today ::
      MergeAll(EMPTY, [Commit(s, today), Commit(t, today)], cal).credits
      != MergeAll(EMPTY, [Commit(t, today), Commit(s, today)], cal).credits
  {
    var read := Snapshot(EMPTY.(credits := Some(1), creditsFetched := 5), false);
    var checkin := Snapshot(EMPTY.(checkinAt := 9), false);
    var a, b := Commit(read, 0), Commit(checkin, 0);
    AfterTwo(EMPTY, a, b, cal);
    AfterTwo(EMPTY, b, a, cal);
    assert MergeAll(EMPTY, [a, b], cal).credits == Some(1);
    assert MergeAll(EMPTY, [b, a], cal).credits == None;
  }

  lemma AfterTwo(e: Entry, a: Commit, b: Commit, cal: Calendar)
    ensures MergeAll(e, [a, b], cal) == Merge(Merge(e, a.snapshot, a.today, cal), b.snapshot, b.today, cal)
  {
    hide Merge;
    assert [a, b][..1] == [a] && [a][..0] == [];
    assert MergeAll(e, [a], cal) == Merge(MergeAll(e, [], cal), a.snapshot, a.today, cal);
  }

  /** Exactly when the order of two commits shows in the credits: one of them alone has a balance
      fresh enough for the cache, but begun before the other's check-in, and it differs from the
      cached one; or both are fresh, read at the same time, and differ. */
  lemma CreditsCommuteExactly(e: Entry, a: Commit, b: Commit, cal: Calendar)
    ensures MergeAll(e, [a, b], cal).credits != MergeAll(e, [b, a], cal).credits
      <==> BlockedByCheckin(e, a.snapshot, b.snapshot) || BlockedByCheckin(e, b.snapshot, a.snapshot)
           || TiedReads(e, a.snapshot, b.snapshot)
  {
    AfterTwo(e, a, b, cal);
    AfterTwo(e, b, a, cal);
    CreditsAfter(e, a, b, cal);
    CreditsAfter(e, b, a, cal);
    hide Merge, MergeAll;
  }

  ghost predicate BlockedByCheckin(e: Entry, s: Snapshot, other: Snapshot) {
    && TakesCredits(e, s) && !TakesCredits(e, other)
    && s.fields.creditsFetched < other.fields.checkinAt && s.fields.credits != e.credits
  }

  ghost predicate TiedReads(e: Entry, s: Snapshot, t: Snapshot) {
    && TakesCredits(e, s) && TakesCredits(e, t)
    && s.fields.creditsFetched == t.fields.creditsFetched && s.fields.credits != t.fields.credits
  }

  /** The credits after two commits, from the cached entry alone. */
  lemma CreditsAfter(e: Entry, a: Commit, b: Commit, cal: Calendar)
    ensures Merge(Merge(e, a.snapshot, a.today, cal), b.snapshot, b.today, cal).credits
      == if TakesCredits(e, b.snapshot) && b.snapshot.fields.creditsFetched >= a.snapshot.fields.checkinAt
            && (TakesCredits(e, a.snapshot) ==> b.snapshot.fields.creditsFetched >= a.snapshot.fields.creditsFetched)
         then b.snapshot.fields.credits
         else if TakesCredits(e, a.snapshot) then a.snapshot.fields.credits
         else e.credits
  {
    hide KeepConfirmed, TakesCheckin, TakesPlan;
  }
}
