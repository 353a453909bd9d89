/** retention.service.ts, and the win-back half of renewal-reminders.service.ts. */
module Retention {
  import opened Common
  import opened Calendar
  import opened BillingTables

  const WARNINGS := {Warning0, Warning7, Warning13}
  const WINBACKS := {Winback3, Winback7, Winback14}

  /** Days into the pause at which a notice is due. */
  function NoticeDay(n: Notice, retentionDays: nat): int {
    match n
    case Warning0 => 0
    case Warning7 => 7
    case Warning13 => Max(retentionDays - 1, 0)
    case Winback3 => 3
    case Winback7 => 7
    case Winback14 => 14
  }

  predicate OnRetentionClock(s: Store) { s.status == OrdersPaused && s.terminalPausedAt.Some? }

  function DaysPaused(s: Store, now: int): int
    requires s.terminalPausedAt.Some?
  {
    (now - s.terminalPausedAt.value) / DAY_MS
  }

  predicate NoticeDue(s: Store, now: int, n: Notice, retentionDays: nat) {
    OnRetentionClock(s) && NoticeDay(n, retentionDays) <= DaysPaused(s, now) && n !in s.sent
  }

  /**
   * When each notice falls due, in numbers: a store on the retention clock is owed its warnings
   * from the start, after 7 days and on the day before the window closes, and its win-back mails
   * after 3, 7 and 14 days, each until it is sent; any other store is owed nothing.
   */
  lemma NoticeTimes(s: Store, now: int, retentionDays: nat)
    ensures s.status == OrdersPaused && s.terminalPausedAt.Some? ==>
              var waited := now - s.terminalPausedAt.value;
              && (NoticeDue(s, now, Warning0, retentionDays) <==> Warning0 !in s.sent && 0 <= waited)
              && (NoticeDue(s, now, Warning7, retentionDays) <==> Warning7 !in s.sent && 7 * DAY_MS <= waited)
              && (NoticeDue(s, now, Warning13, retentionDays) <==> Warning13 !in s.sent && Max(retentionDays - 1, 0) * DAY_MS <= waited)
              && (NoticeDue(s, now, Winback3, retentionDays) <==> Winback3 !in s.sent && 3 * DAY_MS <= waited)
              && (NoticeDue(s, now, Winback7, retentionDays) <==> Winback7 !in s.sent && 7 * DAY_MS <= waited)
              && (NoticeDue(s, now, Winback14, retentionDays) <==> Winback14 !in s.sent && 14 * DAY_MS <= waited)
    ensures s.status != OrdersPaused || s.terminalPausedAt.None? ==> forall n :: !NoticeDue(s, now, n, retentionDays)
  {}

  /** Sets the sent-at column of every notice that the row read by the sweep calls for. */
  function Notify(row: Store, current: Store, now: int, kinds: set<Notice>, retentionDays: nat): Store {
    current.(sent := current.sent + map n | n in kinds && NoticeDue(row, now, n, retentionDays) :: now)
  }

  function SendNotices(stores: Stores, now: int, kinds: set<Notice>, retentionDays: nat): Stores {
    map id | id in stores :: Notify(stores[id], stores[id], now, kinds, retentionDays)
  }

  /** The stores a warning or win-back sweep reads as it starts. */
  function PausedRows(stores: Stores): Stores { map id | id in stores && OnRetentionClock(stores[id]) :: stores[id] }

  predicate Expired(s: Store, now: int, retentionDays: nat) {
    OnRetentionClock(s) && s.terminalPausedAt.value <= now - retentionDays * DAY_MS
  }

  /** The deletion sweep's query: each expired store with the stamp it was seen with. */
  function Candidates(stores: Stores, now: int, retentionDays: nat): map<StoreId, int> {
    map id | id in stores && Expired(stores[id], now, retentionDays) :: stores[id].terminalPausedAt.value
  }

  predicate StillEligible(stores: Stores, id: StoreId, expected: int) {
    id in stores && OnRetentionClock(stores[id]) && stores[id].terminalPausedAt.value == expected
  }

  function DeleteIfStillEligible(stores: Stores, id: StoreId, expected: int): Stores {
    if StillEligible(stores, id, expected) then stores - {id} else stores
  }

  /** The warnings whose day comes before the deletion does. */
  function Owed(retentionDays: nat): set<Notice> { set n | n in WARNINGS && NoticeDay(n, retentionDays) <= retentionDays }

  /** A row the sweep would delete is past the day of every warning it is owed: all three, when the window is a week or more. */
  lemma ExpiredIsFullyWarned(row: Store, current: Store, now: int, retentionDays: nat)
    requires Expired(row, now, retentionDays) && row.sent.Keys <= current.sent.Keys
    ensures Owed(retentionDays) <= Notify(row, current, now, WARNINGS, retentionDays).sent.Keys
    ensures Owed(retentionDays) == if retentionDays >= 7 then WARNINGS else {Warning0, Warning13}
  {
    assert DaysPaused(row, now) >= retentionDays;
  }

  /**
   * A warnings sweep in the last day before a store expires leaves the final warning on it, while
   * the store is not yet one that the deletion sweep would take.
   */
  lemma FinalWarningOnLastDay(row: Store, current: Store, now: int, retentionDays: nat)
    requires row.status == OrdersPaused && row.terminalPausedAt.Some? && row.sent.Keys <= current.sent.Keys
    requires Max(retentionDays - 1, 0) * DAY_MS <= now - row.terminalPausedAt.value < retentionDays * DAY_MS
    ensures Warning13 in Notify(row, current, now, WARNINGS, retentionDays).sent
    ensures !Expired(row, now, retentionDays)
  {
    NoticeTimes(row, now, retentionDays);
  }

  /** With a window shorter than a week a store can expire that was never owed the day-7 warning. */
  lemma ShortWindowSkipsAWarning(pausedAt: int, seller: SellerId, retentionDays: nat)
    requires retentionDays < 7
    ensures var s := Store(seller, OrdersPaused, Some(pausedAt), None, map[]);
            var now := pausedAt + retentionDays * DAY_MS;
            Expired(s, now, retentionDays) && Warning7 !in Notify(s, s, now, WARNINGS, retentionDays).sent
  {}

  /** Every flag of a store belongs to its current pause episode. */
  predicate FlagsAreCurrent(s: Store) {
    if s.terminalPausedAt.None? then s.sent == map[] else forall n | n in s.sent :: s.terminalPausedAt.value <= s.sent[n]
  }

  /** The row the sweep read calls for no notice, or the sweep started within the store's present pause. */
  predicate InTime(row: Store, current: Store, now: int, kinds: set<Notice>, retentionDays: nat) {
    || (forall n | n in kinds :: !NoticeDue(row, now, n, retentionDays))
    || (current.terminalPausedAt.Some? && current.terminalPausedAt.value <= now)
  }

  /**
   * A notice written from a row that a payment has since overtaken leaves its flag on the next
   * pause episode. It keeps the flags current if and only if it is written in time.
   */
  lemma NotifyKeepsFlagsExactly(row: Store, current: Store, now: int, kinds: set<Notice>, retentionDays: nat)
    requires FlagsAreCurrent(current)
    ensures FlagsAreCurrent(Notify(row, current, now, kinds, retentionDays)) <==> InTime(row, current, now, kinds, retentionDays)
  {
    hide NoticeDue;
    if n :| n in kinds && NoticeDue(row, now, n, retentionDays) {
      var after := Notify(row, current, now, kinds, retentionDays);
      assert n in after.sent && after.sent[n] == now;
    } else {
      assert Notify(row, current, now, kinds, retentionDays).sent == current.sent;
    }
  }

  /** Written before anything else happens to the store, it is always in time. */
  lemma FreshNoticeIsInTime(row: Store, now: int, kinds: set<Notice>, retentionDays: nat)
    ensures InTime(row, row, now, kinds, retentionDays)
  {
    if n :| n in kinds && NoticeDue(row, now, n, retentionDays) {
      assert DaysPaused(row, now) >= 0;
    }
  }
}
