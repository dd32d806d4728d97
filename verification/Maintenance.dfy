/** maintenance.go: planned maintenance windows, absolute or repeated daily by
    the clock of the server's time zone. */
module Maintenance {
  import opened Calendar

  const MINUTE: int := 60 * SECOND
  const DAY: int := 86400 * SECOND
  const MINUTES_A_DAY: int := 1440

  /** A time zone: from instant at on, local time is offset ahead of UTC. */
  datatype Change = Change(at: int, offset: int)
  datatype Zone = Zone(standard: int, changes: seq<Change>)

  function OffsetAt(z: Zone, t: int): int
    decreases |z.changes|
  {
    if z.changes == [] then z.standard
    else
      var last := z.changes[|z.changes| - 1];
      if last.at <= t then last.offset else OffsetAt(z.(changes := z.changes[..|z.changes| - 1]), t)
  }

  /** t.Local().Hour() * 60 + t.Local().Minute(). */
  function ClockMinutes(z: Zone, t: int): (m: int)
    ensures 0 <= m < MINUTES_A_DAY
  {
    ((t + OffsetAt(z, t)) % DAY) / MINUTE
  }

  datatype Window = Window(scope: string, startAt: int, endAt: int, repeatDaily: bool)

  predicate Covers(w: Window, z: Zone, now: int) {
    if w.repeatDaily then
      var s, e := ClockMinutes(z, w.startAt), ClockMinutes(z, w.endAt);
      var cur := ClockMinutes(z, now);
      if s == e then false
      else if s < e then s <= cur < e
      else cur >= s || cur < e
    else w.startAt <= now < w.endAt
  }

  /** A window with fixed ends holds its start and not its end. */
  lemma FixedWindow(w: Window, z: Zone, now: int)
    requires !w.repeatDaily
    ensures Covers(w, z, now) <==> w.startAt <= now < w.endAt
  {
  }

  /** The offset in force is that of the latest change so far, the standard one
      before the first. */
  lemma {:induction false} OffsetIsLatest(z: Zone, t: int)
    requires forall i, j | 0 <= i < j < |z.changes| :: z.changes[i].at < z.changes[j].at
    ensures forall i | 0 <= i < |z.changes| && z.changes[i].at <= t
                       && (i + 1 < |z.changes| ==> t < z.changes[i + 1].at) :: OffsetAt(z, t) == z.changes[i].offset
    ensures (forall i | 0 <= i < |z.changes| :: t < z.changes[i].at) ==> OffsetAt(z, t) == z.standard
    decreases |z.changes|
  {
    if z.changes != [] {
      var last := |z.changes| - 1;
      if z.changes[last].at > t {
        OffsetIsLatest(z.(changes := z.changes[..last]), t);
      } else {
        forall i | 0 <= i < |z.changes|
          ensures z.changes[i].at <= t
        {
          assert i < last ==> z.changes[i].at < z.changes[last].at;
        }
      }
    }
  }

  /** The clock shows the whole minutes since local midnight. */
  lemma ClockShows(z: Zone, t: int)
    ensures var local := t + OffsetAt(z, t);
            exists day :: 0 <= local - day * (86400 * SECOND) - ClockMinutes(z, t) * (60 * SECOND) < 60 * SECOND
  {
    var local := t + OffsetAt(z, t);
    var day := local / DAY;
    assert local == day * DAY + local % DAY;
    var m := (local % DAY) / MINUTE;
    assert local % DAY == m * MINUTE + (local % DAY) % MINUTE;
    assert 0 <= local - day * (86400 * SECOND) - m * (60 * SECOND) < 60 * SECOND;
  }

  /** A daily window is the arc of the clock face that runs from its start
      forward to its end: crossing midnight makes no difference, and equal ends
      mean an empty arc, not a whole day. */
  lemma DailyWindowIsAnArc(w: Window, z: Zone, now: int)
    requires w.repeatDaily
    ensures var s, e, cur := ClockMinutes(z, w.startAt), ClockMinutes(z, w.endAt), ClockMinutes(z, now);
            Covers(w, z, now) <==> (cur - s) % MINUTES_A_DAY < (e - s) % MINUTES_A_DAY
  {
    hide ClockMinutes;
    var s, e, cur := ClockMinutes(z, w.startAt), ClockMinutes(z, w.endAt), ClockMinutes(z, now);
    Around(cur - s);
    Around(e - s);
  }

  lemma Around(d: int)
    requires -MINUTES_A_DAY < d < MINUTES_A_DAY
    ensures d % MINUTES_A_DAY == if d < 0 then d + MINUTES_A_DAY else d
  {
  }

  /** The rows that concern a node: scope IN ("global", node). */
  function ScopeOf(rows: seq<Window>, n: string): seq<Window> {
    if rows == [] then []
    else
      var last := rows[|rows| - 1];
      ScopeOf(rows[..|rows| - 1], n) + if last.scope in ["global", n] then [last] else []
  }

  predicate AnyCovers(ws: seq<Window>, z: Zone, now: int) {
    exists i | 0 <= i < |ws| :: Covers(ws[i], z, now)
  }

  /** Is the node under maintenance? */
  predicate InMaintenance(rows: seq<Window>, z: Zone, n: string, now: int) {
    exists i | 0 <= i < |rows| :: rows[i].scope in ["global", n] && Covers(rows[i], z, now)
  }

  lemma {:induction false} ScopeIsMaintenance(rows: seq<Window>, z: Zone, n: string, now: int)
    ensures AnyCovers(ScopeOf(rows, n), z, now) <==> InMaintenance(rows, z, n, now)
  {
    hide Covers;
    if rows != [] {
      var head, last := rows[..|rows| - 1], rows[|rows| - 1];
      ScopeIsMaintenance(head, z, n, now);
      var ws, all := ScopeOf(head, n), ScopeOf(rows, n);
      if last.scope in ["global", n] {
        assert all[|ws|] == last && all[..|ws|] == ws;
      } else {
        assert all == ws;
      }
      if InMaintenance(head, z, n, now) {
        var i :| 0 <= i < |head| && head[i].scope in ["global", n] && Covers(head[i], z, now);
        assert rows[i] == head[i];
      }
      if AnyCovers(ws, z, now) {
        var i :| 0 <= i < |ws| && Covers(ws[i], z, now);
        assert all[i] == ws[i];
      }
      if InMaintenance(rows, z, n, now) {
        var i :| 0 <= i < |rows| && rows[i].scope in ["global", n] && Covers(rows[i], z, now);
        if i < |head| {
          assert head[i] == rows[i];
        }
      }
    }
  }

  method FirstCovering(ws: seq<Window>, z: Zone, now: int) returns (hit: bool)
    ensures hit == AnyCovers(ws, z, now)
  {
    hide Covers;
    hit := false;
    for i := 0 to |ws|
      invariant forall k | 0 <= k < i :: !Covers(ws[k], z, now)
    {
      if Covers(ws[i], z, now) {
        return true;
      }
    }
  }

  method MaintenanceHit(rows: seq<Window>, z: Zone, n: string, now: int) returns (hit: bool)
    ensures hit == InMaintenance(rows, z, n, now)
  {
    hit := FirstCovering(ScopeOf(rows, n), z, now);
    ScopeIsMaintenance(rows, z, n, now);
  }
}
