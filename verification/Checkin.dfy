/** points_core.go, daily check-in: one row per user and day, streaks, and the
    points announced for the next check-in. */
module Checkin {
  import opened Calendar
  import opened Keys
  import opened Options
  import opened Points
  import opened Text

  datatype Config = Config(enabled: bool, checkinEnabled: bool, base: int, streakBonus: int, streakMax: int)

  datatype Entry = Entry(user: nat, day: int, streak: int, points: int)

  datatype State = State(bank: Bank, entries: seq<Entry>)

  datatype Reply = Disabled | CheckedIn | NotPaid(verdict: Verdict) | Paid(entry: Entry, row: Row)

  /** The settings interface refuses negative rules. */
  predicate Sane(cfg: Config) {
    cfg.base >= 0 && cfg.streakBonus >= 0 && cfg.streakMax >= 0
  }

  function CheckinPoints(cfg: Config, streak: int): int {
    var extra := if cfg.streakMax > 0 && streak - 1 > cfg.streakMax - 1 then cfg.streakMax - 1 else streak - 1;
    cfg.base + (if extra < 0 then 0 else extra) * cfg.streakBonus
  }

  predicate HasDay(entries: seq<Entry>, user: nat, day: int) {
    exists i | 0 <= i < |entries| :: entries[i].user == user && entries[i].day == day
  }

  /** ORDER BY day DESC LIMIT 1. */
  function LastOf(entries: seq<Entry>, user: nat): (r: Option<Entry>)
    ensures r.None? ==> forall i | 0 <= i < |entries| :: entries[i].user != user
    ensures r.Some? ==> r.value in entries && r.value.user == user
    ensures r.Some? ==> forall i | 0 <= i < |entries| && entries[i].user == user :: entries[i].day <= r.value.day
  {
    if entries == [] then None
    else
      var last := entries[|entries| - 1];
      var r := LastOf(entries[..|entries| - 1], user);
      if last.user == user && (r.None? || last.day > r.value.day) then Some(last) else r
  }

  /** checkinState: already checked in today, current streak, points of the
      next check-in. */
  function Announced(s: State, cfg: Config, user: nat, today: int): (bool, int, int) {
    var last := LastOf(s.entries, user);
    if last.Some? && last.value.day == today then
      (true, last.value.streak, CheckinPoints(cfg, last.value.streak + 1))
    else if last.Some? && last.value.day == today - 1 then
      (false, last.value.streak, CheckinPoints(cfg, last.value.streak + 1))
    else
      (false, 0, CheckinPoints(cfg, 1))
  }

  function NewEntry(s: State, cfg: Config, user: nat, today: int): Entry {
    var last := LastOf(s.entries, user);
    var streak := if last.Some? && last.value.day == today - 1 then last.value.streak + 1 else 1;
    Entry(user, today, streak, CheckinPoints(cfg, streak))
  }

  function CheckinOp(cal: Calendar, e: Entry): Op
    requires InCalendar(cal, e.day)
  {
    Op(e.user, e.points, ByCheckin, cal.dates[e.day], KeyOf(Source.Checkin(e.user, cal.dates[e.day])))
  }

  function CheckinReply(s: State, cfg: Config, cal: Calendar, user: nat, today: int): Reply
    requires InCalendar(cal, today)
  {
    var e := NewEntry(s, cfg, user, today);
    if !cfg.enabled || !cfg.checkinEnabled then Disabled
    else if Announced(s, cfg, user, today).0 || HasDay(s.entries, user, today) then CheckedIn
    else
      match Judge(s.bank, CheckinOp(cal, e))
      case Applied => Paid(e, RowFor(s.bank, CheckinOp(cal, e)))
      case Duplicate => CheckedIn
      case v => NotPaid(v)
  }

  /** doCheckin: the row and the points together, or neither. */
  function AfterCheckin(s: State, cfg: Config, cal: Calendar, user: nat, today: int): State
    requires InCalendar(cal, today)
  {
    var reply := CheckinReply(s, cfg, cal, user, today);
    if reply.Paid? then State(Post(s.bank, CheckinOp(cal, reply.entry)), s.entries + [reply.entry]) else s
  }

  // ---------- the invariant ----------

  /** streak is the length of the maximal run of check-in days ending at day. */
  ghost predicate IsRun(entries: seq<Entry>, user: nat, day: int, streak: int) {
    && streak >= 1
    && (forall d | day - streak < d <= day :: HasDay(entries, user, d))
    && !HasDay(entries, user, day - streak)
  }

  ghost predicate EntriesOk(entries: seq<Entry>) {
    && (forall i, j | 0 <= i < j < |entries| && entries[i].user == entries[j].user :: entries[i].day < entries[j].day)
    && (forall i | 0 <= i < |entries| :: IsRun(entries, entries[i].user, entries[i].day, entries[i].streak))
  }

  /** Check-in keys are booked only for recorded days. */
  ghost predicate KeysOk(s: State, cal: Calendar) {
    forall u: nat, d: int | InCalendar(cal, d) ::
      HasKey(s.bank.ledger, KeyOf(Source.Checkin(u, cal.dates[d]))) ==> HasDay(s.entries, u, d)
  }

  ghost predicate Inv(s: State, cal: Calendar, clock: int) {
    && LedgerInv(s.bank) && EntriesOk(s.entries) && KeysOk(s, cal)
    && (forall i | 0 <= i < |s.entries| :: s.entries[i].day <= clock)
  }

  lemma HasDayAppend(entries: seq<Entry>, e: Entry, user: nat, day: int)
    ensures HasDay(entries + [e], user, day) <==> HasDay(entries, user, day) || (e.user == user && e.day == day)
  {
    if HasDay(entries, user, day) {
      var i :| 0 <= i < |entries| && entries[i].user == user && entries[i].day == day;
      assert (entries + [e])[i] == entries[i];
    }
    assert (entries + [e])[|entries|] == e;
  }

  lemma RunStays(entries: seq<Entry>, e: Entry, user: nat, day: int, streak: int)
    requires IsRun(entries, user, day, streak) && (e.user == user ==> e.day > day)
    ensures IsRun(entries + [e], user, day, streak)
  {
    forall d
      ensures HasDay(entries + [e], user, d) <==> HasDay(entries, user, d) || (e.user == user && e.day == d)
    {
      HasDayAppend(entries, e, user, d);
    }
  }

  lemma NewRun(s: State, cfg: Config, user: nat, today: int)
    requires EntriesOk(s.entries) && !HasDay(s.entries, user, today)
    requires forall i | 0 <= i < |s.entries| :: s.entries[i].day <= today
    ensures var e := NewEntry(s, cfg, user, today); IsRun(s.entries + [e], user, today, e.streak)
  {
    var e := NewEntry(s, cfg, user, today);
    var last := LastOf(s.entries, user);
    forall d
      ensures HasDay(s.entries + [e], user, d) <==> HasDay(s.entries, user, d) || d == today
    {
      HasDayAppend(s.entries, e, user, d);
    }
    if last.Some? && last.value.day == today - 1 {
      var i :| 0 <= i < |s.entries| && s.entries[i] == last.value;
      assert IsRun(s.entries, user, today - 1, last.value.streak);
    } else {
      assert !HasDay(s.entries, user, today - 1);
    }
  }

  lemma CheckinKeepsEntries(s: State, cfg: Config, cal: Calendar, user: nat, today: int)
    requires InCalendar(cal, today) && EntriesOk(s.entries) && CheckinReply(s, cfg, cal, user, today).Paid?
    requires forall i | 0 <= i < |s.entries| :: s.entries[i].day <= today
    ensures EntriesOk(AfterCheckin(s, cfg, cal, user, today).entries)
  {
    var e := NewEntry(s, cfg, user, today);
    var entries' := s.entries + [e];
    NewRun(s, cfg, user, today);
    forall i | 0 <= i < |s.entries| && s.entries[i].user == user
      ensures s.entries[i].day < today
    {
      assert s.entries[i].day != today;
    }
    forall i | 0 <= i < |entries'|
      ensures IsRun(entries', entries'[i].user, entries'[i].day, entries'[i].streak)
    {
      if i < |s.entries| {
        RunStays(s.entries, e, s.entries[i].user, s.entries[i].day, s.entries[i].streak);
      }
    }
  }

  /** A check-in key, cut to the column width, can only come from its own day. */
  lemma OnlyOwnKey(cal: Calendar, source: Source, u: nat, d: int)
    requires DatesRegular(cal) && InCalendar(cal, d)
    requires Truncate(KeyOf(source), KEY_LIMIT) == KeyOf(Source.Checkin(u, cal.dates[d]))
    ensures source.Checkin?
    ensures |KeyOf(source)| <= KEY_LIMIT ==> source == Source.Checkin(u, cal.dates[d])
  {
    var own := Source.Checkin(u, cal.dates[d]);
    assert KeyOf(own) == Family(own) + ":" + Payload(own);
    TruncationKeepsFamily(source, own);
    if |KeyOf(source)| <= KEY_LIMIT {
      KeysInjective(source, own);
    }
  }

  lemma CheckinKeepsKeys(s: State, cfg: Config, cal: Calendar, user: nat, today: int)
    requires KeysOk(s, cal) && DatesRegular(cal) && user < Pow10(20)
    requires InCalendar(cal, today) && |cal.dates[today]| == 10
    requires CheckinReply(s, cfg, cal, user, today).Paid?
    ensures KeysOk(AfterCheckin(s, cfg, cal, user, today), cal)
  {
    hide KeyOf, Judge, Truncate, LastOf;
    var e := NewEntry(s, cfg, user, today);
    var row := RowFor(s.bank, CheckinOp(cal, e));
    var source := Source.Checkin(user, cal.dates[today]);
    InternalKeysFit(source);
    forall u: nat, d: int |
        InCalendar(cal, d) && HasKey(s.bank.ledger + [row], KeyOf(Source.Checkin(u, cal.dates[d])))
      ensures HasDay(s.entries + [e], u, d)
    {
      HasKeyAppend(s.bank.ledger, row, KeyOf(Source.Checkin(u, cal.dates[d])));
      HasDayAppend(s.entries, e, u, d);
      if row.key == KeyOf(Source.Checkin(u, cal.dates[d])) {
        KeysInjective(source, Source.Checkin(u, cal.dates[d]));
      }
    }
  }

  // ---------- runs ----------

  datatype Event =
    | Visit(cfg: Config, user: nat, today: int)
    | OtherPoints(user: nat, delta: int, kind: Kind, refId: string, source: Option<Source>)

  function OtherOp(e: Event): Op
    requires e.OtherPoints?
  {
    Op(e.user, e.delta, e.kind, e.refId, if e.source.Some? then KeyOf(e.source.value) else "")
  }

  function Step(s: State, cal: Calendar, e: Event): State {
    match e
    case Visit(cfg, user, today) => if InCalendar(cal, today) then AfterCheckin(s, cfg, cal, user, today) else s
    case OtherPoints(_, _, _, _, source) =>
      if source.Some? && source.value.Checkin? then s else s.(bank := Commit(s.bank, OtherOp(e)))
  }

  function Run(s: State, cal: Calendar, events: seq<Event>): State
    decreases |events|
  {
    if events == [] then s else Run(Step(s, cal, events[0]), cal, events[1..])
  }

  /** The clock never goes back, user ids are 64-bit and dates have ten bytes. */
  ghost predicate Timely(cal: Calendar, events: seq<Event>, clock: int)
    decreases |events|
  {
    events == [] ||
    (match events[0]
     case Visit(_, user, today) =>
       && user < Pow10(20) && InCalendar(cal, today) && |cal.dates[today]| == 10
       && clock <= today && Timely(cal, events[1..], today)
     case OtherPoints(_, _, _, _, _) => Timely(cal, events[1..], clock))
  }

  function ClockAfter(e: Event, clock: int): int {
    if e.Visit? then e.today else clock
  }

  lemma OtherKeepsKeys(s: State, cal: Calendar, e: Event)
    requires KeysOk(s, cal) && DatesRegular(cal) && e.OtherPoints?
    ensures KeysOk(Step(s, cal, e), cal)
  {
    if !(e.source.Some? && e.source.value.Checkin?) {
      var row := RowFor(s.bank, OtherOp(e));
      hide KeyOf;
      forall u: nat, d: int |
        InCalendar(cal, d) && HasKey(s.bank.ledger + [row], KeyOf(Source.Checkin(u, cal.dates[d])))
        ensures HasDay(s.entries, u, d)
      {
        HasKeyAppend(s.bank.ledger, row, KeyOf(Source.Checkin(u, cal.dates[d])));
        if row.key == KeyOf(Source.Checkin(u, cal.dates[d])) {
          KeyIsNotEmpty(Source.Checkin(u, cal.dates[d]));
          OnlyOwnKey(cal, e.source.value, u, d);
        }
      }
    }
  }

  lemma KeyIsNotEmpty(source: Source)
    ensures KeyOf(source) != ""
  {
  }

  lemma StepKeepsInv(s: State, cal: Calendar, e: Event, clock: int)
    requires Inv(s, cal, clock) && DatesRegular(cal) && Timely(cal, [e], clock)
    ensures Inv(Step(s, cal, e), cal, ClockAfter(e, clock))
  {
    hide KeyOf, LedgerInv, EntriesOk, KeysOk, DatesRegular, Judge, LastOf, HasDay;
    match e {
      case Visit(cfg, user, today) =>
        if CheckinReply(s, cfg, cal, user, today).Paid? {
          CheckinKeepsEntries(s, cfg, cal, user, today);
          CheckinKeepsKeys(s, cfg, cal, user, today);
          CommitKeepsInv(s.bank, CheckinOp(cal, NewEntry(s, cfg, user, today)));
        }
      case OtherPoints(_, _, _, _, _) =>
        CommitKeepsInv(s.bank, OtherOp(e));
        OtherKeepsKeys(s, cal, e);
    }
  }

  lemma {:induction false} RunKeepsInv(s: State, cal: Calendar, events: seq<Event>, clock: int) returns (end: int)
    requires Inv(s, cal, clock) && DatesRegular(cal) && Timely(cal, events, clock)
    ensures end >= clock && Inv(Run(s, cal, events), cal, end)
    decreases |events|
  {
    if events == [] {
      end := clock;
    } else {
      assert Timely(cal, [events[0]], clock);
      StepKeepsInv(s, cal, events[0], clock);
      end := RunKeepsInv(Step(s, cal, events[0]), cal, events[1..], ClockAfter(events[0], clock));
    }
  }

  /** In every run from an empty database with a clock that does not go back a
      user has at most one row per day, and each row's streak is the length of
      the maximal run of check-in days that ends there. */
  lemma StreaksOverRuns(cal: Calendar, events: seq<Event>, clock: int)
    requires DatesRegular(cal) && Timely(cal, events, clock)
    ensures var s := Run(State(EMPTY, []), cal, events);
            && (forall i, j | 0 <= i < j < |s.entries| ::
                  !(s.entries[i].user == s.entries[j].user && s.entries[i].day == s.entries[j].day))
            && (forall i | 0 <= i < |s.entries| ::
                  IsRun(s.entries, s.entries[i].user, s.entries[i].day, s.entries[i].streak))
  {
    var end := RunKeepsInv(State(EMPTY, []), cal, events, clock);
  }

  lemma PointsNotNegative(cfg: Config, streak: int)
    requires Sane(cfg)
    ensures CheckinPoints(cfg, streak) >= cfg.base
  {
  }

  /** The points of a day: the base, and the bonus once more for every further
      day of the streak up to its cap; a cap of 0 means none. */
  lemma PointsGrowWithStreak(cfg: Config, streak: int)
    requires streak >= 1 && cfg.streakMax >= 0
    ensures CheckinPoints(cfg, 1) == cfg.base
    ensures CheckinPoints(cfg, streak + 1) - CheckinPoints(cfg, streak)
         == if cfg.streakMax == 0 || streak < cfg.streakMax then cfg.streakBonus else 0
  {
    assert (streak - 1 + 1) * cfg.streakBonus == (streak - 1) * cfg.streakBonus + cfg.streakBonus;
  }

  /** What the page shows: whether the user has checked in today, and the length
      of the run of days that ends today or yesterday. */
  lemma AnnouncedIsState(s: State, cal: Calendar, cfg: Config, user: nat, today: int)
    requires Inv(s, cal, today)
    ensures var (done, streak, next) := Announced(s, cfg, user, today);
            && (done <==> HasDay(s.entries, user, today))
            && (if done then IsRun(s.entries, user, today, streak)
                else if HasDay(s.entries, user, today - 1) then IsRun(s.entries, user, today - 1, streak)
                else streak == 0)
            && next == CheckinPoints(cfg, streak + 1)
  {
    var last := LastOf(s.entries, user);
    if last.Some? {
      var i :| 0 <= i < |s.entries| && s.entries[i] == last.value;
    }
    hide KeysOk, LedgerInv, LastOf;
  }

  /** The complete condition under which a check-in is paid, and that a refusal
      names a reason that applies. */
  lemma PaidIff(s: State, cal: Calendar, cfg: Config, user: nat, today: int)
    requires Inv(s, cal, today) && user < Pow10(20) && InCalendar(cal, today) && |cal.dates[today]| == 10
    ensures var streak := NewEntry(s, cfg, user, today).streak;
            CheckinReply(s, cfg, cal, user, today).Paid? <==>
              && cfg.enabled && cfg.checkinEnabled && user != 0 && !HasDay(s.entries, user, today)
              && CheckinPoints(cfg, streak) != 0
              && BalanceOf(s.bank, user) + CheckinPoints(cfg, streak) >= 0
    ensures CheckinReply(s, cfg, cal, user, today) == Disabled <==> !cfg.enabled || !cfg.checkinEnabled
    ensures CheckinReply(s, cfg, cal, user, today) == CheckedIn ==> HasDay(s.entries, user, today)
  {
    hide LedgerInv, EntriesOk, LastOf, HasKey, CheckinPoints, Pow10, KeyOf, Judge, Announced, HasDay;
    var e := NewEntry(s, cfg, user, today);
    AnnouncedIsState(s, cal, cfg, user, today);
    ChangeGoesThrough(s.bank, CheckinOp(cal, e));
    OwnKeyUnused(s, cal, user, today);
  }

  /** The key of a day without a row is unused, in full and as it is stored. */
  lemma OwnKeyUnused(s: State, cal: Calendar, user: nat, today: int)
    requires KeysOk(s, cal) && user < Pow10(20) && InCalendar(cal, today) && |cal.dates[today]| == 10
    ensures var key := KeyOf(Source.Checkin(user, cal.dates[today]));
            && Truncate(key, 128) == key && key != ""
            && (HasKey(s.bank.ledger, key) ==> HasDay(s.entries, user, today))
  {
    InternalKeysFit(Source.Checkin(user, cal.dates[today]));
  }

  /** What checkinState announces to a user who has not checked in is what
      doCheckin pays at that moment. The one exception is an announcement of 0
      points (base 0 and no streak bonus): then doCheckin fails and records
      nothing, because a zero change is not a valid point operation. */
  lemma AnnouncedIsPaid(s: State, cal: Calendar, cfg: Config, user: nat, today: int)
    requires Inv(s, cal, today) && Sane(cfg) && cfg.enabled && cfg.checkinEnabled && user != 0
    requires user < Pow10(20) && InCalendar(cal, today) && |cal.dates[today]| == 10 && !Announced(s, cfg, user, today).0
    ensures var points := Announced(s, cfg, user, today).2;
            var reply := CheckinReply(s, cfg, cal, user, today);
            var s' := AfterCheckin(s, cfg, cal, user, today);
            && (reply.Paid? <==> points > 0)
            && (reply.Paid? ==> reply.entry.points == reply.row.delta == points
                                && reply.row.user == reply.entry.user == user && reply.row.kind == ByCheckin
                                && reply.row.refId == cal.dates[today] && reply.entry.day == today
                                && s'.entries == s.entries + [reply.entry]
                                && s'.bank.ledger == s.bank.ledger + [reply.row]
                                && BalanceOf(s'.bank, user) == BalanceOf(s.bank, user) + points)
            && (points == 0 ==> reply == NotPaid(ZeroDelta) && s' == s)
  {
    hide KeyOf, LedgerInv, EntriesOk, LastOf;
    var e := NewEntry(s, cfg, user, today);
    PointsNotNegative(cfg, e.streak);
    assert e.points == Announced(s, cfg, user, today).2;
    InternalKeysFit(Source.Checkin(user, cal.dates[today]));
    assert !HasKey(s.bank.ledger, KeyOf(Source.Checkin(user, cal.dates[today])));
  }

  // ---------- the tables ----------

  class Checkins {
    const bank: Ledger
    var entries: seq<Entry>

    function View(): State
      reads this, bank
    {
      State(bank.View(), entries)
    }

    constructor (bank: Ledger)
      ensures this.bank == bank && View() == State(bank.View(), [])
    {
      this.bank := bank;
      entries := [];
    }

    method DoCheckin(cfg: Config, cal: Calendar, user: nat, today: int) returns (reply: Reply)
      requires InCalendar(cal, today)
      modifies this, bank
      ensures reply == CheckinReply(old(View()), cfg, cal, user, today)
      ensures View() == AfterCheckin(old(View()), cfg, cal, user, today)
    {
      hide Judge, KeyOf, HasKey, HasDay, CheckinPoints, Truncate, InCalendar, CheckinOp;
      if !cfg.enabled || !cfg.checkinEnabled {
        return Disabled;
      }
      var before := View();
      var last := LastOf(entries, user);
      if last.Some? && last.value.day == today {
        return CheckedIn;
      }
      var streak := 1;
      if last.Some? && last.value.day == today - 1 {
        streak := last.value.streak + 1;
      }
      var e := Entry(user, today, streak, CheckinPoints(cfg, streak));
      if HasDay(entries, user, today) {
        return CheckedIn;
      }
      entries := entries + [e];
      var v := bank.ApplyPoints(CheckinOp(cal, e));
      if v == Applied {
        return Paid(e, bank.rows[|bank.rows| - 1]);
      }
      bank.Restore(before.bank);
      entries := before.entries;
      return if v == Duplicate then CheckedIn else NotPaid(v);
    }
  }
}
