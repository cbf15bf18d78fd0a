/** The shared table of check-in runs: admission, outcome, cancellation, day change, eviction.
    Times are integers, days come from a calendar function, and the unset time is None. The
    functions say what each locked section does to the table; the class does it in place. */
module CheckinRuns {
  import opened Collections
  import opened CheckinAttempt

  const RUN_LIMIT: nat := 512
  const RETRY_DELAYS: seq<int> := [60, 120, 300]

  type Calendar = int -> int

  datatype Record = Record(authId: string, day: Option<int>, state: RunState, campaignId: string,
                           at: int, next: Option<int>, retries: nat, confirmOnly: bool, confirmed: bool,
                           legacy: bool, inFlight: bool, generation: nat)

  type Table = map<string, Record>

  const ZERO := Record("", None, Fresh, "", 0, None, 0, false, false, false, false, 0)

  datatype Source = Manual | Auto | Retry

  predicate Blank(index: string) {
    forall c | c in index :: c == ' ' || 9 <= c as int <= 13
  }

  // ----- admission

  /** Not in flight, no uncertain POST, and no spent or pending retry budget of today. */
  predicate Evictable(r: Record, today: int) {
    !r.inFlight && !r.confirmOnly && !(r.day == Some(today) && (r.retries > 0 || r.next.Some?))
  }

  /** An evictable record none of the evictable ones is older than. */
  predicate IsVictim(t: Table, today: int, k: string) {
    k in t && Evictable(t[k], today) && forall j | j in t && Evictable(t[j], today) :: t[k].at <= t[j].at
  }

  /** The victim a new record must displace: none while there is room, and none to be had
      when nothing is evictable. Ties between oldest records are open. */
  ghost predicate Displaces(t: Table, index: string, today: int, victim: Option<string>) {
    if index in t || |t| < RUN_LIMIT then victim.None?
    else if victim.Some? then IsVictim(t, today, victim.value)
    else forall k | k in t :: !Evictable(t[k], today)
  }

  function AtIndex(t: Table, index: string): Record {
    if index in t then t[index] else ZERO
  }

  /** A new day keeps only the uncertain POST checkpoint. */
  function ForDay(r: Record, today: int): Record {
    if r.day == Some(today) then r
    else ZERO.(day := Some(today), generation := r.generation, confirmOnly := r.confirmOnly,
               campaignId := r.campaignId, legacy := r.legacy)
  }

  datatype Admission = Admission(table: Table, record: Record, admitted: bool)

  function Room(t: Table, index: string, victim: Option<string>): Table {
    if index !in t && victim.Some? then t - {victim.value} else t
  }

  /** A retry needs a due schedule and budget; an automatic run needs an open state. */
  predicate Refused(r: Record, source: Source, now: int) {
    match source
    case Manual => false
    case Auto => r.state != Fresh && r.state != NoBenefit && r.state != Disabled
    case Retry => r.next.None? || r.next.value > now || r.retries >= |RETRY_DELAYS|
  }

  /** An admitted retry is charged at once, whatever comes of it. */
  function Taken(r: Record, id: string, source: Source, now: int): Record {
    var charged := if source == Retry then r.(retries := r.retries + 1, next := None) else r;
    charged.(authId := id, at := now, inFlight := true)
  }

  function Reserve(t: Table, index: string, id: string, source: Source, now: int, today: int,
          victim: Option<string>): Admission
  {
    if Blank(index) then Admission(t, ZERO, false)
    else if index !in t && |t| >= RUN_LIMIT && victim.None? then Admission(t, ZERO, false)
    else
      var room := Room(t, index, victim);
      var r := ForDay(AtIndex(t, index), today);
      if Refused(r, source, now) then Admission(room, r, false)
      else Admission(room[index := Taken(r, id, source, now)], Taken(r, id, source, now), true)
  }

  // ----- outcome

  /** When the next retry is due, if the outcome may be retried and nobody cancelled. */
  function NextRetry(current: Record, before: Record, c: Conclusion, now: int, enabled: bool,
          cal: Calendar): Option<int>
  {
    if c.retryable && enabled && before.retries < |RETRY_DELAYS| && current.generation == before.generation
       && Some(cal(now + RETRY_DELAYS[before.retries])) == before.day
    then Some(now + RETRY_DELAYS[before.retries])
    else None
  }

  /** The campaign and the contract the record names after a run. */
  function NextCampaign(before: Record, c: Conclusion): string {
    if c.campaignId != "" then c.campaignId else before.campaignId
  }

  function NextLegacy(before: Record, c: Conclusion): bool {
    if c.campaignId != "" || c.hasStatus || c.confirmed then c.legacy else before.legacy
  }

  /** A confirmation of the same campaign is kept; another campaign starts afresh. */
  function NextConfirmed(before: Record, c: Conclusion): bool {
    if c.campaignId != "" && c.campaignId != before.campaignId then c.confirmed else c.confirmed || before.confirmed
  }

  function NextConfirmOnly(before: Record, c: Conclusion): bool {
    !c.confirmed && (c.confirmOnly || before.confirmOnly)
  }

  function Outcome(current: Record, before: Record, c: Conclusion, now: int, enabled: bool, cal: Calendar): Record {
    before.(
      at := now,
      state := c.state,
      inFlight := false,
      confirmed := NextConfirmed(before, c),
      confirmOnly := NextConfirmOnly(before, c),
      campaignId := NextCampaign(before, c),
      legacy := NextLegacy(before, c),
      next := NextRetry(current, before, c, now, enabled, cal),
      generation := current.generation)
  }

  function Finish(t: Table, index: string, before: Record, c: Conclusion, now: int, enabled: bool, cal: Calendar): Table
  {
    t[index := Outcome(AtIndex(t, index), before, c, now, enabled, cal)]
  }

  // ----- cancellation and day change

  function Cancelled(r: Record): Record {
    r.(next := None, generation := r.generation + 1)
  }

  function Cancel(t: Table, index: string): Table {
    if index in t then t[index := Cancelled(t[index])] else t
  }

  function CancelAll(t: Table): Table {
    map k | k in t :: Cancelled(t[k])
  }

  /** The due scan: retry schedules never cross days. */
  function Sweep(t: Table, today: int): Table {
    map k | k in t :: if t[k].day != Some(today) then t[k].(next := None) else t[k]
  }

  function Due(t: Table, now: int, today: int): set<string> {
    set k | k in t && t[k].day == Some(today) && t[k].next.Some? && t[k].next.value <= now
  }

  // ----- who is admitted, and when a retry comes

  /** The account's record, as long as it is of today. */
  function OfToday(t: Table, index: string, today: int): Option<Record> {
    if index in t && t[index].day == Some(today) then Some(t[index]) else None
  }

  /** A manual run is always admitted when there is room; an automatic one unless today's record shows
      an outcome already; a retry exactly when one is due today and fewer than three were spent. */
  lemma AdmittedExactly(t: Table, index: string, id: string, source: Source, now: int, today: int,
          victim: Option<string>)
    ensures Reserve(t, index, id, source, now, today, victim).admitted <==>
      && (exists c :: c in index && c != ' ' && !(9 <= c as int <= 13)) && (index in t || |t| < 512 || victim.Some?)
      && var r := OfToday(t, index, today);
         match source {
           case Manual => true
           case Auto => r.None? || r.value.state in {Fresh, NoBenefit, Disabled}
           case Retry => r.Some? && r.value.next.Some? && r.value.next.value <= now && r.value.retries < 3
         }
  {
  }

  /** Nothing is lost with this record: no run in progress, no uncertain POST, and of today neither a
      spent retry nor a scheduled one. */
  predicate MayGo(r: Record, today: int) {
    !r.inFlight && !r.confirmOnly && (r.day == Some(today) ==> r.retries == 0 && r.next.None?)
  }

  /** A record makes way exactly for a new account in a table of 512, and only one that may go and
      that none of those that may go is older than; a new account finds no room exactly when none of
      512 may go. */
  lemma VictimExactly(t: Table, index: string, today: int, victim: Option<string>)
    requires Displaces(t, index, today, victim)
    ensures victim.Some? <==> index !in t && |t| >= 512 && exists k :: k in t && MayGo(t[k], today)
    ensures victim.Some? ==>
      && victim.value in t && MayGo(t[victim.value], today)
      && forall k | k in t && MayGo(t[k], today) :: t[victim.value].at <= t[k].at
  {
    forall r: Record ensures Evictable(r, today) <==> MayGo(r, today) {}
    hide Evictable, MayGo;
  }

  /** The due scan finds exactly the runs whose retry would be admitted now, but for those that have
      no retry left; the scheduler never leaves such a run. */
  lemma DueIsAdmitted(t: Table, index: string, id: string, now: int, today: int)
    requires index in t && !Blank(index) && t[index].retries < 3
    ensures index in Due(t, now, today) <==> Reserve(t, index, id, Retry, now, today, None).admitted
  {
    AdmittedExactly(t, index, id, Retry, now, today, None);
    hide Reserve;
  }

  /** A scan takes the schedule of every record of another day and nothing else; a cancellation takes
      the schedule of its record, or of all, and marks it as changed, and nothing else. */
  lemma SchedulesGo(t: Table, index: string, today: int, k: string)
    requires k in t
    ensures k in Sweep(t, today) && k in Cancel(t, index) && k in CancelAll(t)
    ensures Sweep(t, today)[k] == t[k].(next := if t[k].day == Some(today) then t[k].next else None)
    ensures Cancel(t, index)[k] == if k == index then CancelAll(t)[k] else t[k]
    ensures CancelAll(t)[k] == t[k].(next := None, generation := CancelAll(t)[k].generation)
    ensures CancelAll(t)[k].generation > t[k].generation
    ensures Sweep(t, today).Keys == Cancel(t, index).Keys == CancelAll(t).Keys == t.Keys
  {
  }

  /** What an admitted run starts from. Of another day's record only the uncertain POST is kept; a
      retry is charged and its schedule used up. */
  lemma AdmittedRecord(t: Table, index: string, id: string, source: Source, now: int, today: int,
          victim: Option<string>)
    requires Reserve(t, index, id, source, now, today, victim).admitted
    ensures var a, was := Reserve(t, index, id, source, now, today, victim), AtIndex(t, index);
      var r := a.record;
      && a.table[index := r] == a.table && r.authId == id && r.at == now && r.inFlight && r.day == Some(today)
      && r.confirmOnly == was.confirmOnly && r.campaignId == was.campaignId && r.legacy == was.legacy
      && r.generation == was.generation
      && (OfToday(t, index, today).Some? ==> r.state == was.state && r.confirmed == was.confirmed)
      && (OfToday(t, index, today).None? ==> r.state == Fresh && !r.confirmed && r.next == None && r.retries == 0)
      && (source != Retry && OfToday(t, index, today).Some? ==> r.next == was.next && r.retries == was.retries)
      && (source == Retry ==> r.next == None && r.retries == was.retries + 1)
  {
  }

  /** The first retry comes after a minute, the second after two, the third after five, each only
      on the day of the record, for an outcome that may be retried, while retries are switched on and
      nobody cancelled since the run was admitted. */
  lemma RetryExactly(current: Record, before: Record, c: Conclusion, now: int, enabled: bool, cal: Calendar, at: int)
    ensures NextRetry(current, before, c, now, enabled, cal) == Some(at) <==>
      && c.retryable && enabled && current.generation == before.generation && before.day == Some(cal(at))
      && (|| (before.retries == 0 && at == now + 60) || (before.retries == 1 && at == now + 120)
          || (before.retries == 2 && at == now + 300))
  {
  }

  /** What an outcome makes of a confirmation and of an uncertain POST: a confirmation is lost exactly
      to another campaign's claim that was not confirmed, an uncertain POST exactly to a confirmation. */
  lemma OutcomeKeeps(t: Table, index: string, before: Record, c: Conclusion, now: int, enabled: bool, cal: Calendar)
    ensures var r := Finish(t, index, before, c, now, enabled, cal)[index];
      && (before.confirmed ==> (!r.confirmed <==> !c.confirmed && c.campaignId !in ["", before.campaignId]))
      && (!before.confirmed ==> (r.confirmed <==> c.confirmed))
      && (before.confirmOnly ==> (!r.confirmOnly <==> c.confirmed))
      && (!before.confirmOnly ==> (r.confirmOnly <==> c.confirmOnly && !c.confirmed))
      && r.campaignId == (if c.campaignId == "" then before.campaignId else c.campaignId)
      && (r.legacy != before.legacy <==>
            c.legacy != before.legacy && (c.campaignId != "" || c.hasStatus || c.confirmed))
      && r.state == c.state && !r.inFlight && r.at == now && r.day == before.day && r.retries == before.retries
      && r.generation == AtIndex(t, index).generation
    ensures forall k | k != index ::
      (k in Finish(t, index, before, c, now, enabled, cal) <==> k in t)
      && (k in t ==> Finish(t, index, before, c, now, enabled, cal)[k] == t[k])
  {
    hide NextRetry;
  }

  // ----- the table in place

  class Runs {
    var records: Table

    constructor ()
      ensures records == map[]
    {
      records := map[];
    }

    /** Scans for the oldest evictable record. */
    method OldestEvictable(today: int) returns (victim: Option<string>)
      ensures if victim.Some? then IsVictim(records, today, victim.value)
        else forall k | k in records :: !Evictable(records[k], today)
    {
      victim := None;
      var left := records.Keys;
      while left != {}
        invariant left <= records.Keys
        invariant victim.None? ==> forall k | k in records.Keys - left :: !Evictable(records[k], today)
        invariant victim.Some? ==>
          && victim.value in records && Evictable(records[victim.value], today)
          && forall k | k in records.Keys - left && Evictable(records[k], today) ::
               records[victim.value].at <= records[k].at
      {
        var k :| k in left;
        left := left - {k};
        if Evictable(records[k], today) && (victim.None? || records[k].at < records[victim.value].at) {
          victim := Some(k);
        }
      }
    }

    /** Admission under the table lock, before any upstream call. */
    method ReserveRun(index: string, id: string, source: Source, now: int, today: int)
      returns (record: Record, admitted: bool, ghost victim: Option<string>)
      modifies this
      ensures !Blank(index) ==> Displaces(old(records), index, today, victim)
      ensures Admission(records, record, admitted) == Reserve(old(records), index, id, source, now, today, victim)
    {
      victim := None;
      if Blank(index) { return ZERO, false, None; }
      var r := ZERO;
      if index in records {
        r := records[index];
      } else if |records| >= RUN_LIMIT {
        var oldest := OldestEvictable(today);
        victim := oldest;
        if oldest.None? { return ZERO, false, None; }
        records := records - {oldest.value};
      }
      if r.day != Some(today) {
        r := ZERO.(day := Some(today), generation := r.generation, confirmOnly := r.confirmOnly,
                   campaignId := r.campaignId, legacy := r.legacy);
      }
      if source == Retry {
        if r.next.None? || r.next.value > now || r.retries >= |RETRY_DELAYS| { return r, false, victim; }
        r := r.(retries := r.retries + 1, next := None);
      }
      if source == Auto && r.state != Fresh && r.state != NoBenefit && r.state != Disabled { return r, false, victim; }
      r := r.(authId := id, at := now, inFlight := true);
      records := records[index := r];
      return r, true, victim;
    }

    /** Records the outcome of the run that was admitted with the record before. */
    method FinishRun(index: string, before: Record, c: Conclusion, now: int, enabled: bool, cal: Calendar)
      returns (r: Record)
      modifies this
      ensures records == Finish(old(records), index, before, c, now, enabled, cal) && r == records[index]
    {
      hide NextRetry;
      var current := AtIndex(records, index);
      var confirmed := c.confirmed || before.confirmed;
      if c.campaignId != "" && c.campaignId != before.campaignId { confirmed := c.confirmed; }
      var confirmOnly := c.confirmOnly || (before.confirmOnly && !c.confirmed);
      if c.confirmed { confirmOnly := false; }
      var campaignId, legacy := before.campaignId, before.legacy;
      if c.campaignId != "" { campaignId := c.campaignId; }
      if c.campaignId != "" || c.hasStatus || c.confirmed { legacy := c.legacy; }
      var next := RetryAt(current, before, c, now, enabled, cal);
      r := before.(at := now, state := c.state, inFlight := false, confirmed := confirmed, confirmOnly := confirmOnly,
                   campaignId := campaignId, legacy := legacy, next := next, generation := current.generation);
      records := records[index := r];
    }

    static method RetryAt(current: Record, before: Record, c: Conclusion, now: int, enabled: bool, cal: Calendar)
      returns (next: Option<int>)
      ensures next == NextRetry(current, before, c, now, enabled, cal)
    {
      next := None;
      if c.retryable && enabled && before.retries < |RETRY_DELAYS| && current.generation == before.generation {
        var at := now + RETRY_DELAYS[before.retries];
        if Some(cal(at)) == before.day { next := Some(at); }
      }
    }

    method CancelRetry(index: string)
      modifies this
      ensures records == Cancel(old(records), index)
    {
      if index in records {
        records := records[index := records[index].(next := None, generation := records[index].generation + 1)];
      }
    }

    method CancelScheduled()
      modifies this
      ensures records == CancelAll(old(records))
    {
      ghost var was := records;
      var left := records.Keys;
      while left != {}
        invariant records.Keys == was.Keys && left <= was.Keys
        invariant forall k | k in was :: records[k] == if k in left then was[k] else Cancelled(was[k])
      {
        var k :| k in left;
        left := left - {k};
        records := records[k := records[k].(next := None, generation := records[k].generation + 1)];
      }
    }

    /** The due scan: drops schedules of other days and collects the runs that are due. */
    method ScanDue(now: int, today: int) returns (due: set<string>)
      modifies this
      ensures records == Sweep(old(records), today) && due == Due(old(records), now, today)
    {
      ghost var was := records;
      due := {};
      var left := records.Keys;
      while left != {}
        invariant records.Keys == was.Keys && left <= was.Keys
        invariant forall k | k in was :: records[k] == if k in left then was[k] else Sweep(was, today)[k]
        invariant due == Due(was, now, today) - left
      {
        var k :| k in left;
        left := left - {k};
        var r := records[k];
        if r.day != Some(today) {
          records := records[k := r.(next := None)];
        } else if r.next.Some? && r.next.value <= now {
          due := due + {k};
        }
      }
    }
  }
}
