/** The cooldown table: throttled (account, model) pairs, with an account-wide entry, under the
    empty model, for exhausted shared credits alone. Names are taken as already trimmed and
    normalised; times are integers, with 0 for an unset observation time. */
module Cooldown {
  import opened Collections

  datatype Reason = RateLimit | UpstreamError | DailyQuota | SharedCredit | ModelCredit | ModelQuota

  datatype Key = Key(auth: string, model: string)
  datatype Entry = Entry(reason: Reason, until: int, updatedAt: int)
  type Entries = map<Key, Entry>

  const RATE_LIMIT_TTL := 300
  const UNKNOWN_TTL := 60
  const DAILY_QUOTA_TTL := 1800
  const MAX_ENTRIES := 4096

  predicate IsQuota(r: Reason) {
    !r.RateLimit? && !r.UpstreamError?
  }

  function Ttl(r: Reason): int {
    match r case RateLimit => RATE_LIMIT_TTL case DailyQuota => DAILY_QUOTA_TTL case _ => UNKNOWN_TTL
  }

  function Get(t: Entries, k: Key): Option<Entry> {
    if k in t then Some(t[k]) else None
  }

  predicate Live(t: Entries, k: Key, now: int) {
    k in t && t[k].until > now
  }

  function Sweep(t: Entries, now: int): Entries {
    map k | k in t && t[k].until > now :: t[k]
  }

  ghost predicate Oldest(t: Entries, victim: Key) {
    victim in t && forall k | k in t :: t[victim].until <= t[k].until
  }

  /** A throttled pair; victim is the entry given up when the table is full. */
  function Mark(t: Entries, auth: string, model: string, reason: Reason, now: int, victim: Key): Entries {
    var k := Key(auth, model);
    var swept := Sweep(t, now);
    if auth == "" || model == "" then t
    else if k in swept && IsQuota(swept[k].reason) then swept
    else (if |swept| >= MAX_ENTRIES then swept - {victim} else swept)[k := Entry(reason, now + Ttl(reason), now)]
  }

  /** A mark gives up an entry only for a full table and a pair without a live quota entry. */
  predicate Evicts(t: Entries, auth: string, model: string, now: int) {
    var swept := Sweep(t, now);
    && auth != "" && model != "" && |swept| >= MAX_ENTRIES
    && (Key(auth, model) in swept ==> !IsQuota(swept[Key(auth, model)].reason))
  }

  /** The key a quota observation is filed under, if it is filed at all. */
  function QuotaKey(auth: string, model: string, reason: Reason): Option<Key> {
    if auth == "" then None
    else if reason.SharedCredit? then Some(Key(auth, ""))
    else if model == "" then None
    else Some(Key(auth, model))
  }

  function RecordQuota(t: Entries, auth: string, model: string, reason: Reason, resetAt: int, now: int): Entries {
    var k := QuotaKey(auth, model, reason);
    var swept := Sweep(t, now);
    var until := if resetAt > now then resetAt else now + DAILY_QUOTA_TTL;
    if k.None? then t
    else if k.value in swept && (swept[k.value].reason.DailyQuota? || swept[k.value].reason == reason) then swept
    else if |swept| >= MAX_ENTRIES then swept
    else swept[k.value := Entry(reason, until, now)]
  }

  function RecordHint(t: Entries, k: Key, resetAt: int, now: int): Entries {
    if resetAt > now && k in t && t[k].reason.RateLimit? then t[k := t[k].(until := resetAt)] else t
  }

  function ObserveCredits(t: Entries, auth: string, positive: bool, observedAt: int): Entries {
    var k := Key(auth, "");
    if positive && k in t && t[k].reason.SharedCredit? && observedAt != 0 && observedAt >= t[k].updatedAt
    then t - {k} else t
  }

  /** An empty model clears the whole account. */
  predicate Clears(auth: string, model: string, k: Key) {
    auth != "" && k.auth == auth && (model == "" || k.model == model)
  }

  function Clear(t: Entries, auth: string, model: string): Entries {
    map k | k in t && !Clears(auth, model, k) :: t[k]
  }

  /** Drops one entry if it has expired. */
  function DropExpired(t: Entries, k: Key, now: int): Entries {
    if k in t && t[k].until <= now then t - {k} else t
  }

  function AskedTable(t: Entries, auth: string, model: string, now: int): Entries {
    if auth == "" || model == "" then t else DropExpired(t, Key(auth, model), now)
  }

  function Listed(t: Entries, auth: string, now: int): Entries {
    map k | k in t && !(auth != "" && k.auth == auth && t[k].until <= now) :: t[k]
  }

  /** The first locked part of the dispatch guard looks at the account key, then at the pair. */
  function OtherTable(t: Entries, auth: string, model: string, now: int): Entries {
    var t1 := DropExpired(t, Key(auth, ""), now);
    if OtherQuota(t, Key(auth, ""), now) then t
    else if OtherQuota(t1, Key(auth, model), now) then t1
    else DropExpired(t1, Key(auth, model), now)
  }

  predicate OtherBlocks(t: Entries, auth: string, model: string, now: int) {
    OtherQuota(t, Key(auth, ""), now) || OtherQuota(t, Key(auth, model), now)
  }

  /** The second locked part, reached when the first found nothing: the daily cap of the pair. */
  function DailyTable(t: Entries, auth: string, model: string, now: int): Entries {
    var k := Key(auth, model);
    if k in t && t[k].reason.DailyQuota? then DropExpired(t, k, now) else t
  }

  predicate DailyBlocks(t: Entries, auth: string, model: string, now: int) {
    Live(t, Key(auth, model), now) && t[Key(auth, model)].reason.DailyQuota?
  }

  predicate OtherQuota(t: Entries, k: Key, now: int) {
    Live(t, k, now) && IsQuota(t[k].reason) && !t[k].reason.DailyQuota?
  }

  /** What the guard is for: a live quota entry on the pair, or exhausted shared credits on the
      account. */
  predicate Blocked(t: Entries, auth: string, model: string, now: int) {
    || (Live(t, Key(auth, model), now) && IsQuota(t[Key(auth, model)].reason))
    || (Live(t, Key(auth, ""), now) && t[Key(auth, "")].reason.SharedCredit?)
  }

  ghost predicate TableOk(t: Entries) {
    && |t| <= MAX_ENTRIES
    && (forall k | k in t :: k.auth != "")
    && (forall k | k in t && k.model == "" :: t[k].reason.SharedCredit?)
  }

  class Table {
    var entries: Entries

    constructor ()
      ensures entries == map[]
    {
      entries := map[];
    }

    method SweepExpired(now: int)
      modifies this
      ensures entries == Sweep(old(entries), now)
    {
      var rest := entries.Keys;
      while rest != {}
        invariant rest <= old(entries).Keys
        invariant entries == map k | k in old(entries) && (k in rest || old(entries)[k].until > now) :: old(entries)[k]
        decreases rest
      {
        var k :| k in rest;
        if entries[k].until <= now { entries := entries - {k}; }
        rest := rest - {k};
      }
    }

    /** Scans for an entry that expires first; among equals any may be found. */
    method OldestEntry() returns (victim: Key)
      requires entries != map[]
      ensures Oldest(entries, victim)
    {
      var rest, first := entries.Keys, true;
      victim := Key("", "");
      var until := 0;
      while rest != {}
        invariant rest <= entries.Keys && (first <==> rest == entries.Keys)
        invariant !first ==> victim in entries && until == entries[victim].until
        invariant !first ==> forall k | k in entries && k !in rest :: until <= entries[k].until
        decreases rest
      {
        var k :| k in rest;
        if first || entries[k].until < until {
          victim, until := k, entries[k].until;
        }
        first := false;
        rest := rest - {k};
      }
    }

    method MarkCooldown(auth: string, model: string, reason: Reason, now: int) returns (ghost victim: Key)
      modifies this
      ensures Evicts(old(entries), auth, model, now) ==> Oldest(Sweep(old(entries), now), victim)
      ensures entries == Mark(old(entries), auth, model, reason, now, victim)
    {
      hide Sweep;
      victim := Key(auth, model);
      if auth == "" || model == "" { return; }
      var ttl := UNKNOWN_TTL;
      if reason.RateLimit? {
        ttl := RATE_LIMIT_TTL;
      } else if reason.DailyQuota? {
        ttl := DAILY_QUOTA_TTL;
      }
      SweepExpired(now);
      var k := Key(auth, model);
      if k in entries && IsQuota(entries[k].reason) { return; }
      if |entries| >= MAX_ENTRIES {
        var oldest := OldestEntry();
        entries := entries - {oldest};
        victim := oldest;
      }
      entries := entries[k := Entry(reason, now + ttl, now)];
    }

    method RecordQuotaObservation(auth: string, model: string, reason: Reason, resetAt: int, now: int)
      modifies this
      ensures entries == RecordQuota(old(entries), auth, model, reason, resetAt, now)
    {
      if auth == "" { return; }
      var filed := model;
      if reason.SharedCredit? {
        filed := "";
      } else if model == "" {
        return;
      }
      var until := now + DAILY_QUOTA_TTL;
      if resetAt > now { until := resetAt; }
      SweepExpired(now);
      var k := Key(auth, filed);
      if k in entries && (entries[k].reason.DailyQuota? || entries[k].reason == reason) { return; }
      if |entries| >= MAX_ENTRIES { return; }
      entries := entries[k := Entry(reason, until, now)];
    }

    /** An empty model removes every pair of the account; the count of removed entries. */
    method ClearCooldown(auth: string, model: string) returns (removed: nat)
      modifies this
      ensures entries == Clear(old(entries), auth, model)
      ensures removed == |old(entries)| - |entries|
    {
      removed := 0;
      if auth == "" {
        assert entries == Clear(entries, auth, model);
        return;
      }
      if model != "" {
        if Key(auth, model) in entries {
          entries := entries - {Key(auth, model)};
          removed := 1;
        }
        assert entries == Clear(old(entries), auth, model);
        return;
      }
      var rest := entries.Keys;
      while rest != {}
        invariant rest <= old(entries).Keys && rest * entries.Keys == rest
        invariant entries == map k | k in old(entries) && (k in rest || !Clears(auth, model, k)) :: old(entries)[k]
        invariant removed == |old(entries)| - |entries|
        decreases rest
      {
        var k :| k in rest;
        if k.auth == auth {
          assert entries.Keys - {k} == (entries - {k}).Keys;
          entries := entries - {k};
          removed := removed + 1;
        }
        rest := rest - {k};
      }
    }

    method CoolingUntil(auth: string, model: string, now: int) returns (until: Option<int>)
      modifies this
      ensures entries == AskedTable(old(entries), auth, model, now)
      ensures auth == "" || model == "" ==> until == None
      ensures auth != "" && model != "" ==>
        until == if Live(old(entries), Key(auth, model), now) then Some(old(entries)[Key(auth, model)].until) else None
    {
      if auth == "" || model == "" { return None; }
      var k := Key(auth, model);
      if k !in entries { return None; }
      if entries[k].until <= now {
        entries := entries - {k};
        return None;
      }
      return Some(entries[k].until);
    }

    /** The models hidden from the catalogue: quota entries are enforced at dispatch instead. */
    method CoolingModels(auth: string, now: int) returns (models: set<string>)
      modifies this
      ensures entries == Listed(old(entries), auth, now)
      ensures forall m :: m in models <==>
        auth != "" && Live(old(entries), Key(auth, m), now) && !IsQuota(old(entries)[Key(auth, m)].reason)
    {
      models := {};
      if auth == "" {
        assert entries == Listed(entries, auth, now);
        return;
      }
      var rest := entries.Keys;
      while rest != {}
        invariant rest <= old(entries).Keys && rest * entries.Keys == rest
        invariant entries == map k | k in old(entries) && (k in rest || k.auth != auth || old(entries)[k].until > now)
          :: old(entries)[k]
        invariant forall m :: m in models <==>
          Key(auth, m) !in rest && Live(old(entries), Key(auth, m), now) && !IsQuota(old(entries)[Key(auth, m)].reason)
        decreases rest
      {
        var k :| k in rest;
        if k.auth == auth {
          if entries[k].until <= now {
            entries := entries - {k};
          } else if !IsQuota(entries[k].reason) {
            models := models + {k.model};
          }
        }
        rest := rest - {k};
      }
    }

    method OtherQuotaError(auth: string, model: string, now: int) returns (error: Option<Reason>)
      modifies this
      ensures error.Some? <==> OtherBlocks(old(entries), auth, model, now)
      ensures error.Some? ==> IsQuota(error.value) && !error.value.DailyQuota?
      ensures entries == OtherTable(old(entries), auth, model, now)
    {
      var keys := [Key(auth, ""), Key(auth, model)];
      error := None;
      for i := 0 to 2
        invariant i == 0 ==> entries == old(entries)
        invariant i == 1 ==> entries == DropExpired(old(entries), Key(auth, ""), now)
        invariant i == 2 ==>
          entries == DropExpired(DropExpired(old(entries), Key(auth, ""), now), Key(auth, model), now)
        invariant i > 0 ==> !OtherQuota(old(entries), Key(auth, ""), now)
        invariant i > 1 ==> !OtherQuota(old(entries), Key(auth, model), now)
      {
        var k := keys[i];
        if k in entries {
          if entries[k].until <= now {
            entries := entries - {k};
          } else if entries[k].reason.SharedCredit? || entries[k].reason.ModelCredit? || entries[k].reason.ModelQuota? {
            return Some(entries[k].reason);
          }
        }
      }
    }

    method DailyQuotaError(auth: string, model: string, now: int) returns (error: Option<Reason>)
      modifies this
      ensures error == if DailyBlocks(old(entries), auth, model, now) then Some(DailyQuota) else None
      ensures entries == DailyTable(old(entries), auth, model, now)
    {
      var k := Key(auth, model);
      if k !in entries || !entries[k].reason.DailyQuota? { return None; }
      if entries[k].until <= now {
        entries := entries - {k};
        return None;
      }
      return Some(DailyQuota);
    }

    /** The guard before every dispatch, when nothing else happens to the table meanwhile.
        Whatever blocks for as long as it runs stops the call, and it stops nothing that was not
        blocked when it began. */
    method DispatchGuard(auth: string, model: string, now: int, later: int) returns (error: Option<Reason>)
      requires now <= later && TableOk(entries)
      modifies this
      ensures Blocked(old(entries), auth, model, later) ==> error.Some?
      ensures error.Some? ==> Blocked(old(entries), auth, model, now)
      ensures var t := OtherTable(old(entries), auth, model, now);
        entries == if OtherBlocks(old(entries), auth, model, now) then t else DailyTable(t, auth, model, later)
    {
      error := OtherQuotaError(auth, model, now);
      if error.Some? { return; }
      error := DailyQuotaError(auth, model, later);
    }
  }

  // ----- what is filed, in seconds

  /** When a quota observation made now stops the account's calls: a live daily cap or an earlier
      observation of the same kind keeps its end, otherwise the reset time counts when it lies ahead
      and half an hour when it does not. */
  function QuotaEnd(t: Entries, k: Key, reason: Reason, resetAt: int, now: int): int {
    if k in t && t[k].until > now && (t[k].reason == DailyQuota || t[k].reason == reason) then t[k].until
    else if resetAt > now then resetAt
    else now + 1800
  }

  /** There is room for a new entry once the expired ones are dropped. */
  ghost predicate HasRoom(t: Entries, now: int) {
    |(set k | k in t && t[k].until > now)| < 4096
  }

  lemma RoomIsSwept(t: Entries, now: int)
    ensures HasRoom(t, now) <==> |Sweep(t, now)| < MAX_ENTRIES
  {
    assert Sweep(t, now).Keys == set k | k in t && t[k].until > now;
  }

  /** A first quota observation is filed and stops every call of the pair, for exhausted shared
      credits every call of the account, until its end and no longer; nothing else that is live
      changes. */
  lemma ObservationBlocks(t: Entries, auth: string, model: string, reason: Reason, resetAt: int, now: int)
    requires TableOk(t) && auth != "" && (model != "" || reason == SharedCredit) && HasRoom(t, now)
    requires reason != RateLimit && reason != UpstreamError
    ensures var after := RecordQuota(t, auth, model, reason, resetAt, now);
      var k := Key(auth, if reason == SharedCredit then "" else model);
      && k in after && after[k].until == QuotaEnd(t, k, reason, resetAt, now) > now
      && (forall m, x | (reason == SharedCredit || m == model) && now <= x < after[k].until ::
            Blocked(after, auth, m, x))
      && (forall x | x >= after[k].until :: !Live(after, k, x))
      && (forall other | other != k :: Get(after, other) == if Live(t, other, now) then Some(t[other]) else None)
  {
    RoomIsSwept(t, now);
  }

  /** So the dispatch guard, begun and ended before that end, stops the call. */
  lemma ObservedIsStopped(t: Entries, auth: string, model: string, reason: Reason, resetAt: int, now: int,
                          m: string, begun: int, ended: int)
    requires TableOk(t) && auth != "" && (model != "" || reason == SharedCredit) && HasRoom(t, now)
    requires reason != RateLimit && reason != UpstreamError && (reason == SharedCredit || m == model)
    requires var k := Key(auth, if reason == SharedCredit then "" else model);
      now <= begun <= ended < QuotaEnd(t, k, reason, resetAt, now)
    ensures var after := RecordQuota(t, auth, model, reason, resetAt, now);
      OtherBlocks(after, auth, m, begun) || DailyBlocks(OtherTable(after, auth, m, begun), auth, m, ended)
  {
    hide RecordQuota, Sweep, QuotaEnd, HasRoom, IsQuota;
    ObservationBlocks(t, auth, model, reason, resetAt, now);
    QuotaKeepsTable(t, auth, model, reason, resetAt, now);
    BlockedIsStopped(RecordQuota(t, auth, model, reason, resetAt, now), auth, m, begun, ended);
  }

  /** Whatever is blocked when the guard ends stops the call in one of its parts. */
  lemma BlockedIsStopped(t: Entries, auth: string, model: string, begun: int, ended: int)
    requires TableOk(t) && begun <= ended && Blocked(t, auth, model, ended)
    ensures OtherBlocks(t, auth, model, begun) || DailyBlocks(OtherTable(t, auth, model, begun), auth, model, ended)
  {
  }

  /** A full table takes no new observation: nothing is filed under a key without a live entry. */
  lemma FullTableFilesNothing(t: Entries, auth: string, model: string, reason: Reason, resetAt: int, now: int)
    requires auth != "" && (model != "" || reason == SharedCredit) && !HasRoom(t, now)
    ensures var after := RecordQuota(t, auth, model, reason, resetAt, now);
      forall k :: Get(after, k) == if Live(t, k, now) then Some(t[k]) else None
  {
    RoomIsSwept(t, now);
  }

  /** A failure marks its pair for five minutes after a rate limit, half an hour after a daily cap
      and one minute otherwise, counted from now; a live quota entry of the pair stands instead. */
  lemma MarkedUntil(t: Entries, auth: string, model: string, reason: Reason, now: int, victim: Key)
    requires auth != "" && model != "" && Legal(t, Marked(auth, model, reason, now, victim))
    ensures var k, after := Key(auth, model), Mark(t, auth, model, reason, now, victim);
      && k in after
      && (if Live(t, k, now) && t[k].reason != RateLimit && t[k].reason != UpstreamError then after[k] == t[k]
          else after[k] == Entry(reason, now + match reason {
                                           case RateLimit => 300
                                           case DailyQuota => 1800
                                           case _ => 60
                                         }, now))
      && (forall other | other != k && Live(t, other, now) ::
            Get(after, other) == Some(t[other]) || (!HasRoom(t, now) && other == victim))
      && (forall other | other in after && other != k :: Live(t, other, now))
  {
    RoomIsSwept(t, now);
  }

  /** A reset hint moves the end of a rate limit it lies ahead of, and nothing else. */
  lemma HintMoves(t: Entries, k: Key, resetAt: int, now: int, other: Key)
    ensures var after := RecordHint(t, k, resetAt, now);
      && (other in after <==> other in t)
      && (other in t && after[other] != t[other] <==>
            other == k && k in t && t[k].reason == RateLimit && resetAt > now && t[k].until != resetAt)
      && (other in t && after[other] != t[other] ==> after[other] == t[other].(until := resetAt))
  {
  }

  /** A positive balance read at or after the observation frees the account of exhausted shared
      credits; any other read, and every other entry, changes nothing. */
  lemma PositiveCreditsFree(t: Entries, auth: string, positive: bool, observedAt: int, k: Key)
    ensures Get(ObserveCredits(t, auth, positive, observedAt), k) != Get(t, k) <==>
      && k == Key(auth, "") && k in t && t[k].reason == SharedCredit
      && positive && observedAt != 0 && t[k].updatedAt <= observedAt
    ensures Get(ObserveCredits(t, auth, positive, observedAt), k) in {Get(t, k), None}
  {
  }

  /** Looking at the table changes nothing but that expired entries go: the one asked for, all of a
      listed account, and both that a dispatch looks at when neither stops it. */
  lemma ReadersDropExpired(t: Entries, auth: string, model: string, now: int, k: Key)
    ensures k in AskedTable(t, auth, model, now) <==>
      k in t && !(auth != "" && model != "" && k == Key(auth, model) && t[k].until <= now)
    ensures k in Listed(t, auth, now) <==> k in t && !(auth != "" && k.auth == auth && t[k].until <= now)
    ensures !OtherBlocks(t, auth, model, now) ==>
      (k in OtherTable(t, auth, model, now) <==>
         k in t && !((k == Key(auth, "") || k == Key(auth, model)) && t[k].until <= now))
    ensures OtherBlocks(t, auth, model, now) && k in t && t[k].until > now ==> k in OtherTable(t, auth, model, now)
    ensures k in DailyTable(t, auth, model, now) <==>
      k in t && !(k == Key(auth, model) && t[k].reason == DailyQuota && t[k].until <= now)
    ensures forall after | after in [AskedTable(t, auth, model, now), Listed(t, auth, now),
                                     OtherTable(t, auth, model, now), DailyTable(t, auth, model, now)] ::
      k in after ==> k in t && after[k] == t[k]
  {
  }

  /** Clearing a pair frees it, clearing an account all its pairs, and nobody else. */
  lemma ClearingFrees(t: Entries, auth: string, model: string, k: Key)
    ensures k in Clear(t, auth, model) <==>
      k in t && !(auth != "" && (k == Key(auth, model) || (model == "" && k.auth == auth)))
    ensures k in Clear(t, auth, model) ==> Clear(t, auth, model)[k] == t[k]
  {
  }

  // ----- every run

  datatype Step =
    | Marked(auth: string, model: string, reason: Reason, now: int, victim: Key)
    | Quota(auth: string, model: string, reason: Reason, resetAt: int, now: int)
    | Hint(key: Key, resetAt: int, now: int)
    | Credits(auth: string, positive: bool, observedAt: int)
    | Cleared(auth: string, model: string)
    | GuardedOther(auth: string, model: string, now: int)
    | GuardedDaily(auth: string, model: string, now: int)
    | Asked(auth: string, model: string, now: int)
    | Lists(auth: string, now: int)

  function Next(t: Entries, s: Step): Entries {
    match s
    case Marked(auth, model, reason, now, victim) => Mark(t, auth, model, reason, now, victim)
    case Quota(auth, model, reason, resetAt, now) => RecordQuota(t, auth, model, reason, resetAt, now)
    case Hint(k, resetAt, now) => RecordHint(t, k, resetAt, now)
    case Credits(auth, positive, observedAt) => ObserveCredits(t, auth, positive, observedAt)
    case Cleared(auth, model) => Clear(t, auth, model)
    case GuardedOther(auth, model, now) => OtherTable(t, auth, model, now)
    case GuardedDaily(auth, model, now) => DailyTable(t, auth, model, now)
    case Asked(auth, model, now) => AskedTable(t, auth, model, now)
    case Lists(auth, now) => Listed(t, auth, now)
  }

  ghost predicate Legal(t: Entries, s: Step) {
    s.Marked? && Evicts(t, s.auth, s.model, s.now) ==> Oldest(Sweep(t, s.now), s.victim)
  }

  ghost predicate Run(ts: seq<Entries>, steps: seq<Step>) {
    && |ts| == |steps| + 1
    && forall i | 0 <= i < |steps| :: Legal(ts[i], steps[i]) && ts[i + 1] == Next(ts[i], steps[i])
  }

  /** The latest clock a step reads, if it reads one. */
  predicate Before(s: Step, time: int) {
    match s
    case Marked(_, _, _, now, _) => now < time
    case Quota(_, _, _, _, now) => now < time
    case Hint(_, _, now) => now < time
    case Credits(_, _, _) => true
    case Cleared(_, _) => true
    case GuardedOther(_, _, now) => now < time
    case GuardedDaily(_, _, now) => now < time
    case Asked(_, _, now) => now < time
    case Lists(_, now) => now < time
  }

  /** What can take a live quota entry off the table or change it: clearing, a fresh positive
      balance, a quota observation of another kind, or giving it up to a full table. */
  ghost predicate Disturbs(t: Entries, s: Step, k: Key)
    requires k in t
  {
    match s
    case Cleared(auth, model) => Clears(auth, model, k)
    case Credits(auth, positive, observedAt) =>
      k == Key(auth, "") && t[k].reason.SharedCredit? && positive && observedAt != 0 && observedAt >= t[k].updatedAt
    case Quota(auth, model, reason, _, now) =>
      && QuotaKey(auth, model, reason) == Some(k) && !t[k].reason.DailyQuota? && t[k].reason != reason
      && |Sweep(t, now)| < MAX_ENTRIES
    case Marked(auth, model, _, now, victim) =>
      Evicts(t, auth, model, now) && victim == k
    case _ => false
  }

  lemma SweepShrinks(t: Entries, now: int)
    ensures |Sweep(t, now)| <= |t|
  {
    Smaller(Sweep(t, now), t);
  }

  lemma Smaller(a: Entries, b: Entries)
    requires a.Keys <= b.Keys
    ensures |a| <= |b|
  {
    SubsetSize(a.Keys, b.Keys);
  }

  lemma {:induction false} SubsetSize<T>(a: set<T>, b: set<T>)
    requires a <= b
    ensures |a| <= |b|
    decreases a
  {
    if a != {} {
      var x :| x in a;
      SubsetSize(a - {x}, b - {x});
    }
  }

  lemma PutSize(t: Entries, k: Key, e: Entry)
    ensures |t[k := e]| == |t| + if k in t then 0 else 1
  {
    assert t[k := e].Keys == t.Keys + {k};
  }

  lemma RemoveSize(t: Entries, k: Key)
    requires k in t
    ensures |t - {k}| == |t| - 1
  {
    assert (t - {k}).Keys == t.Keys - {k};
  }

  lemma StepKeepsTable(t: Entries, s: Step)
    requires TableOk(t) && Legal(t, s)
    ensures TableOk(Next(t, s))
  {
    hide Mark, RecordQuota, RecordHint, Sweep;
    match s
    case Marked(auth, model, reason, now, victim) => MarkKeepsTable(t, auth, model, reason, now, victim);
    case Quota(auth, model, reason, resetAt, now) => QuotaKeepsTable(t, auth, model, reason, resetAt, now);
    case Hint(k, resetAt, now) => HintKeepsTable(t, k, resetAt, now);
    case _ => RemovalKeepsTable(t, Next(t, s));
  }

  lemma RemovalKeepsTable(t: Entries, r: Entries)
    requires TableOk(t) && forall k | k in r :: k in t && r[k] == t[k]
    ensures TableOk(r)
  {
    Smaller(r, t);
  }

  lemma QuotaKeepsTable(t: Entries, auth: string, model: string, reason: Reason, resetAt: int, now: int)
    requires TableOk(t)
    ensures TableOk(RecordQuota(t, auth, model, reason, resetAt, now))
  {
    SweepShrinks(t, now);
    var k := QuotaKey(auth, model, reason);
    if k.Some? {
      PutSize(Sweep(t, now), k.value, Entry(reason, if resetAt > now then resetAt else now + DAILY_QUOTA_TTL, now));
    }
  }

  lemma HintKeepsTable(t: Entries, k: Key, resetAt: int, now: int)
    requires TableOk(t)
    ensures TableOk(RecordHint(t, k, resetAt, now))
  {
    if k in t { PutSize(t, k, t[k].(until := resetAt)); }
  }

  lemma MarkKeepsTable(t: Entries, auth: string, model: string, reason: Reason, now: int, victim: Key)
    requires TableOk(t) && Legal(t, Marked(auth, model, reason, now, victim))
    ensures TableOk(Mark(t, auth, model, reason, now, victim))
  {
    SweepShrinks(t, now);
    var swept := Sweep(t, now);
    if Evicts(t, auth, model, now) { RemoveSize(swept, victim); }
    var kept := if |swept| >= MAX_ENTRIES then swept - {victim} else swept;
    PutSize(kept, Key(auth, model), Entry(reason, now + Ttl(reason), now));
  }

  /** In every reachable table there are at most 4096 entries and only exhausted shared credits
      use an account key. */
  lemma {:induction false} EveryRunKeepsTable(ts: seq<Entries>, steps: seq<Step>)
    requires Run(ts, steps) && ts[0] == map[]
    ensures TableOk(ts[|steps|])
  {
    if steps != [] {
      var n := |steps| - 1;
      assert Run(ts[..|ts| - 1], steps[..n]);
      EveryRunKeepsTable(ts[..|ts| - 1], steps[..n]);
      StepKeepsTable(ts[n], steps[n]);
    }
  }

  /** A live quota entry stays exactly as it is unless the step is one of those listed: other
      failures of the pair neither replace nor prolong it. */
  lemma QuotaStandsExactly(t: Entries, s: Step, k: Key)
    requires TableOk(t) && Legal(t, s) && k in t && IsQuota(t[k].reason) && Before(s, t[k].until)
    ensures Get(Next(t, s), k) == Some(t[k]) <==> !Disturbs(t, s, k)
  {
  }

  /** A pair with a live quota entry stays blocked through every run whose steps leave the entry
      alone, until the entry expires. */
  lemma {:induction false} BlockedUntilExpiry(ts: seq<Entries>, steps: seq<Step>, k: Key, now: int)
    requires Run(ts, steps) && TableOk(ts[0]) && k in ts[0] && IsQuota(ts[0][k].reason) && now < ts[0][k].until
    requires forall i | 0 <= i < |steps| :: Before(steps[i], ts[0][k].until)
    requires forall i | 0 <= i < |steps| :: k in ts[i] ==> !Disturbs(ts[i], steps[i], k)
    ensures TableOk(ts[|steps|]) && Get(ts[|steps|], k) == Some(ts[0][k])
    ensures Blocked(ts[|steps|], k.auth, k.model, now)
  {
    if steps != [] {
      var n := |steps| - 1;
      assert Run(ts[..|ts| - 1], steps[..n]);
      BlockedUntilExpiry(ts[..|ts| - 1], steps[..n], k, now);
      assert Get(ts[n], k) == Some(ts[0][k]);
      StepKeepsTable(ts[n], steps[n]);
      QuotaStandsExactly(ts[n], steps[n], k);
    }
  }

  /** Either locked part errs only when the pair is blocked at that moment. */
  lemma GuardErrsOnlyWhenBlocked(t: Entries, auth: string, model: string, now: int)
    requires TableOk(t)
    ensures OtherBlocks(t, auth, model, now) || DailyBlocks(t, auth, model, now) <==> Blocked(t, auth, model, now)
  {
  }

  /** The guard's two locked parts with any steps of other callers in between: a quota entry that is
      live when the guard begins, still live when it ends, and left alone in between always stops
      the call, whichever part finds it. */
  lemma GuardUnderInterference(ts: seq<Entries>, steps: seq<Step>, auth: string, model: string, now: int, later: int,
                               k: Key)
    requires Run(ts, steps) && TableOk(ts[0]) && |steps| > 1 && now <= later
    requires steps[0] == GuardedOther(auth, model, now) && steps[|steps| - 1] == GuardedDaily(auth, model, later)
    requires k == Key(auth, model) || k == Key(auth, "")
    requires StandsThrough(ts, steps, k, later)
    ensures OtherBlocks(ts[0], auth, model, now) || DailyBlocks(ts[|steps| - 1], auth, model, later)
  {
    if ts[0][k].reason.DailyQuota? {
      var n := |steps| - 1;
      assert Run(ts[..n + 1], steps[..n]);
      BlockedUntilExpiry(ts[..n + 1], steps[..n], k, later);
    }
  }

  /** A quota entry that outlives all these steps and that none of them disturbs. */
  ghost predicate StandsThrough(ts: seq<Entries>, steps: seq<Step>, k: Key, later: int)
    requires |ts| == |steps| + 1
  {
    && k in ts[0] && IsQuota(ts[0][k].reason) && later < ts[0][k].until
    && (forall i | 0 <= i < |steps| :: Before(steps[i], ts[0][k].until))
    && (forall i | 0 <= i < |steps| :: k in ts[i] ==> !Disturbs(ts[i], steps[i], k))
  }

  /** A daily cap is never prolonged nor downgraded: while it is live, a step leaves it as it is
      or takes it off the table. */
  lemma DailyCapIsFinite(t: Entries, s: Step, k: Key)
    requires TableOk(t) && Legal(t, s) && k in t && t[k].reason.DailyQuota? && Before(s, t[k].until)
    ensures Get(Next(t, s), k) == Some(t[k]) || k !in Next(t, s)
  {
  }

  /** A full table gives up a live quota entry of another pair exactly when that entry was picked
      among those expiring first. */
  lemma EvictionCanDropQuota(t: Entries, auth: string, model: string, reason: Reason, now: int, victim: Key, k: Key)
    requires TableOk(t) && Legal(t, Marked(auth, model, reason, now, victim))
    requires Live(t, k, now) && IsQuota(t[k].reason) && k != Key(auth, model)
    ensures k !in Mark(t, auth, model, reason, now, victim) ==>
      && victim == k && |Sweep(t, now)| == MAX_ENTRIES
      && forall other | Live(t, other, now) :: t[k].until <= t[other].until
  {
    SweepShrinks(t, now);
    forall other | Live(t, other, now) && k !in Mark(t, auth, model, reason, now, victim)
      ensures t[k].until <= t[other].until
    {
      assert other in Sweep(t, now);
    }
  }
}
