/** `get_member_stats` (app/crud/member.py): four counters over the
    `incident_participants` rows, two of them joined against the incidents
    that have a killed victim. */
module MemberStats {
  import opened Wrappers
  import opened Incidents

  /** The four counters the function returns. */
  datatype Stats = Stats(kills: nat, assists: nat, shootingsCommitted: nat, timesShot: nat)

  datatype Counter = Kills | Assists | ShootingsCommitted | TimesShot

  predicate IsFatalVictim(p: Participant) {
    p.role == Victim && p.outcome == Some(Killed)
  }

  /** The sub-query: ids of incidents with a VICTIM row whose outcome is KILLED. */
  function FatalIncidents(rows: seq<Participant>): (r: set<string>)
    ensures forall id :: id in r <==> exists j :: 0 <= j < |rows| && IsFatalVictim(rows[j]) && rows[j].incidentId == id
  {
    if |rows| == 0 then {}
    else
      var last := rows[|rows| - 1];
      assert forall j :: 0 <= j < |rows| - 1 ==> rows[..|rows| - 1][j] == rows[j];
      FatalIncidents(rows[..|rows| - 1]) + (if IsFatalVictim(last) then {last.incidentId} else {})
  }

  /** The filter of one counter, given the fatal incidents. */
  predicate Qualifies(c: Counter, fatal: set<string>, member: string, p: Participant) {
    && p.memberId == member
    && match c
       case Kills => p.role == Perpetrator && p.incidentId in fatal
       case Assists => p.role == Accomplice && p.incidentId in fatal
       case ShootingsCommitted => p.role == Perpetrator
       case TimesShot => p.role == Victim
  }

  /** `COUNT(id)` over the rows that pass the filter of counter `c`. */
  function Count(c: Counter, fatal: set<string>, member: string, rows: seq<Participant>): nat {
    if |rows| == 0 then 0
    else Count(c, fatal, member, rows[..|rows| - 1]) + (if Qualifies(c, fatal, member, rows[|rows| - 1]) then 1 else 0)
  }

  /** The row positions that pass the filter of counter `c`. */
  function Matching(c: Counter, fatal: set<string>, member: string, rows: seq<Participant>): set<nat> {
    set j: nat | j < |rows| && Qualifies(c, fatal, member, rows[j])
  }

  /** Appending a row adds its position to the matching positions exactly when it passes. */
  lemma MatchingStep(c: Counter, fatal: set<string>, member: string, rows: seq<Participant>)
    requires |rows| > 0
    ensures var last := |rows| - 1;
            |Matching(c, fatal, member, rows)|
            == |Matching(c, fatal, member, rows[..last])| + (if Qualifies(c, fatal, member, rows[last]) then 1 else 0)
  {
    var last := |rows| - 1;
    var prefix := rows[..last];
    var all, before := Matching(c, fatal, member, rows), Matching(c, fatal, member, prefix);
    var extra: set<nat> := if Qualifies(c, fatal, member, rows[last]) then {last} else {};
    forall j | j in all ensures j in before + extra {
      if j < last { assert rows[j] == prefix[j]; }
    }
    forall j | j in before + extra ensures j in all {
      if j < last { assert rows[j] == prefix[j]; }
    }
    assert all == before + extra;
    assert last !in before;
  }

  /** A counter is the number of rows that pass its filter: one per row,
      however many victims the row's incident has. */
  lemma {:induction false} CountIsNumberOfRows(c: Counter, fatal: set<string>, member: string, rows: seq<Participant>)
    ensures Count(c, fatal, member, rows) == |Matching(c, fatal, member, rows)|
  {
    if |rows| > 0 {
      CountIsNumberOfRows(c, fatal, member, rows[..|rows| - 1]);
      MatchingStep(c, fatal, member, rows);
    }
  }

  /** The statistics of `member` over all participant rows `rows`. */
  function StatsOf(rows: seq<Participant>, member: string): (st: Stats)
    ensures st.kills <= st.shootingsCommitted
  {
    var fatal := FatalIncidents(rows);
    KillsAtMostShootingsCount(fatal, member, rows);
    Stats(
      Count(Kills, fatal, member, rows),
      Count(Assists, fatal, member, rows),
      Count(ShootingsCommitted, fatal, member, rows),
      Count(TimesShot, fatal, member, rows))
  }

  /** First pass: collect the incidents with a killed victim. */
  method CollectFatalIncidents(rows: seq<Participant>) returns (fatal: set<string>)
    ensures fatal == FatalIncidents(rows)
  {
    fatal := {};
    var i := 0;
    while i < |rows|
      invariant 0 <= i <= |rows|
      invariant fatal == FatalIncidents(rows[..i])
    {
      assert rows[..i + 1][..i] == rows[..i];
      if rows[i].role == Victim && rows[i].outcome == Some(Killed) {
        fatal := fatal + {rows[i].incidentId};
      }
      i := i + 1;
    }
    assert rows[..i] == rows;
  }

  /** Second pass: count the member's rows, given the fatal incidents. */
  method CountRows(rows: seq<Participant>, fatal: set<string>, member: string) returns (st: Stats)
    ensures st.kills == Count(Kills, fatal, member, rows)
    ensures st.assists == Count(Assists, fatal, member, rows)
    ensures st.shootingsCommitted == Count(ShootingsCommitted, fatal, member, rows)
    ensures st.timesShot == Count(TimesShot, fatal, member, rows)
  {
    var kills, assists, shootings, shot := 0, 0, 0, 0;
    var i := 0;
    while i < |rows|
      invariant 0 <= i <= |rows|
      invariant kills == Count(Kills, fatal, member, rows[..i])
      invariant assists == Count(Assists, fatal, member, rows[..i])
      invariant shootings == Count(ShootingsCommitted, fatal, member, rows[..i])
      invariant shot == Count(TimesShot, fatal, member, rows[..i])
    {
      var p := rows[i];
      assert rows[..i + 1][..i] == rows[..i];
      if p.memberId == member {
        if p.role == Perpetrator {
          shootings := shootings + 1;
          if p.incidentId in fatal {
            kills := kills + 1;
          }
        } else if p.role == Accomplice {
          if p.incidentId in fatal {
            assists := assists + 1;
          }
        } else {
          shot := shot + 1;
        }
      }
      i := i + 1;
    }
    assert rows[..i] == rows;
    st := Stats(kills, assists, shootings, shot);
  }

  /** The whole computation: the fatal incidents, then the member's counters. */
  method GetMemberStats(rows: seq<Participant>, member: string) returns (st: Stats)
    ensures st == StatsOf(rows, member)
  {
    var fatal := CollectFatalIncidents(rows);
    st := CountRows(rows, fatal, member);
  }

  /** The dictionary returned to callers: exactly the four keys. */
  function ToDict(st: Stats): (d: map<string, nat>)
    ensures d.Keys == {"kills", "assists", "shootings_committed", "times_shot"}
    ensures d["kills"] == st.kills && d["assists"] == st.assists
    ensures d["shootings_committed"] == st.shootingsCommitted && d["times_shot"] == st.timesShot
  {
    map["kills" := st.kills, "assists" := st.assists,
        "shootings_committed" := st.shootingsCommitted, "times_shot" := st.timesShot]
  }

  /** Every kill is also a shooting committed. */
  lemma {:induction false} KillsAtMostShootingsCount(fatal: set<string>, member: string, rows: seq<Participant>)
    ensures Count(Kills, fatal, member, rows) <= Count(ShootingsCommitted, fatal, member, rows)
  {
    if |rows| > 0 {
      KillsAtMostShootingsCount(fatal, member, rows[..|rows| - 1]);
    }
  }

  lemma {:induction false} CountWithoutRows(c: Counter, fatal: set<string>, member: string, rows: seq<Participant>)
    requires forall j :: 0 <= j < |rows| ==> rows[j].memberId != member
    ensures Count(c, fatal, member, rows) == 0
  {
    if |rows| > 0 {
      CountWithoutRows(c, fatal, member, rows[..|rows| - 1]);
    }
  }

  /** A member without participant rows has all counters at zero. */
  lemma NoRowsNoStats(rows: seq<Participant>, member: string)
    requires forall j :: 0 <= j < |rows| ==> rows[j].memberId != member
    ensures StatsOf(rows, member) == Stats(0, 0, 0, 0)
  {
    var fatal := FatalIncidents(rows);
    CountWithoutRows(Kills, fatal, member, rows);
    CountWithoutRows(Assists, fatal, member, rows);
    CountWithoutRows(ShootingsCommitted, fatal, member, rows);
    CountWithoutRows(TimesShot, fatal, member, rows);
  }

  /** Counting is per participant row, not per victim: another killed victim
      in an incident that already had one changes nobody's counters except
      the new victim's `times_shot`. */
  lemma ExtraKilledVictim(rows: seq<Participant>, v: Participant, member: string)
    requires IsFatalVictim(v) && v.incidentId in FatalIncidents(rows)
    ensures var before, after := StatsOf(rows, member), StatsOf(rows + [v], member);
            && after.kills == before.kills
            && after.assists == before.assists
            && after.shootingsCommitted == before.shootingsCommitted
            && after.timesShot == before.timesShot + (if v.memberId == member then 1 else 0)
  {
    var rows' := rows + [v];
    assert rows'[..|rows'| - 1] == rows;
    assert FatalIncidents(rows') == FatalIncidents(rows);
  }
}
