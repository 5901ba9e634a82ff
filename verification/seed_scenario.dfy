/** The sample data of seed.py as worked examples: the three sets and their
    edges, the two incidents with their participants, and the resulting
    statistics. Generated UUIDs are replaced by short readable ids. */
module SeedScenario {
  import opened Wrappers
  import FuzzyDates
  import opened SetRelations
  import opened Associations
  import opened Incidents
  import opened MemberStats

  const JohnDoe := "member-1"
  const MikeSmith := "member-2"
  const TonyBrown := "member-3"
  const ChrisJohnson := "member-4"

  /** Incident 1: a drive-by with one fatality; incident 2: a retaliation
      shooting in which the target was unharmed. */
  const Rows: seq<Participant> := [
    Participant("p-1", "incident-1", JohnDoe, Perpetrator, None),
    Participant("p-2", "incident-1", TonyBrown, Accomplice, None),
    Participant("p-3", "incident-1", MikeSmith, Victim, Some(Killed)),
    Participant("p-4", "incident-2", ChrisJohnson, Perpetrator, None),
    Participant("p-5", "incident-2", JohnDoe, Victim, Some(Unharmed))
  ]

  lemma SeededFatalIncidents()
    ensures FatalIncidents(Rows) == {"incident-1"}
  {
    var r4, r3, r2, r1 := Rows[..4], Rows[..3], Rows[..2], Rows[..1];
    assert r4[..3] == r3 && r3[..2] == r2 && r2[..1] == r1 && r1[..0] == [];
    assert FatalIncidents(r2) == {};
    assert FatalIncidents(r3) == {"incident-1"};
  }

  lemma SeededCount(c: Counter, fatal: set<string>, m: string)
    ensures Count(c, fatal, m, Rows)
         == (if Qualifies(c, fatal, m, Rows[0]) then 1 else 0)
          + (if Qualifies(c, fatal, m, Rows[1]) then 1 else 0)
          + (if Qualifies(c, fatal, m, Rows[2]) then 1 else 0)
          + (if Qualifies(c, fatal, m, Rows[3]) then 1 else 0)
          + (if Qualifies(c, fatal, m, Rows[4]) then 1 else 0)
  {
    var r4, r3, r2, r1 := Rows[..4], Rows[..3], Rows[..2], Rows[..1];
    assert r4[..3] == r3 && r3[..2] == r2 && r2[..1] == r1 && r1[..0] == [];
    assert Count(c, fatal, m, r1) == (if Qualifies(c, fatal, m, Rows[0]) then 1 else 0);
    assert Count(c, fatal, m, r2) == Count(c, fatal, m, r1) + (if Qualifies(c, fatal, m, Rows[1]) then 1 else 0);
    assert Count(c, fatal, m, r3) == Count(c, fatal, m, r2) + (if Qualifies(c, fatal, m, Rows[2]) then 1 else 0);
    assert Count(c, fatal, m, r4) == Count(c, fatal, m, r3) + (if Qualifies(c, fatal, m, Rows[3]) then 1 else 0);
  }

  /** John Doe shot and killed Mike Smith with Tony Brown as accomplice, and
      was himself shot at, unharmed, by Chris Johnson. */
  lemma SeededStats()
    ensures StatsOf(Rows, JohnDoe) == Stats(1, 0, 1, 1)
    ensures StatsOf(Rows, MikeSmith) == Stats(0, 0, 0, 1)
    ensures StatsOf(Rows, TonyBrown) == Stats(0, 1, 0, 0)
    ensures StatsOf(Rows, ChrisJohnson) == Stats(0, 0, 1, 0)
    ensures StatsOf(Rows, "member-5") == Stats(0, 0, 0, 0)
  {
    SeededFatalIncidents();
    var fatal := FatalIncidents(Rows);
    forall c: Counter, m: string {
      SeededCount(c, fatal, m);
    }
  }

  /** Every seeded participant passes the outcome validator. */
  lemma SeededParticipantsAccepted()
    ensures forall j :: 0 <= j < |Rows| ==> Accepted(Rows[j])
  {
  }

  /** The seeded dates display as expected. */
  lemma SeededDates()
    ensures FuzzyDates.New(Some(2020), Some(6), Some(15)).Success?
    ensures FuzzyDates.Format(FuzzyDates.FuzzyDate(Some(2020), Some(6), Some(15))) == "June 15, 2020"
    ensures FuzzyDates.Format(FuzzyDates.FuzzyDate(Some(2015), None, None)) == "2015"
    ensures FuzzyDates.Format(FuzzyDates.Empty) == "Unknown"
    ensures FuzzyDates.New(Some(2021), Some(2), Some(29)) == Failure(FuzzyDates.DayOutOfRange(29, 28, 2))
    ensures FuzzyDates.New(None, Some(5), None) == Failure(FuzzyDates.MonthWithoutYear)
  {
  }

  /** The seeded edges: 7 Mile and Chedda Grove are allies, both are enemies
      of 8 Mile; afterwards the allies cannot be made enemies directly. */
  lemma SeededEdges()
    ensures var s0 := Store({}, {});
            var r1 := AddAlly(s0, "set-1", "set-2");
            var r2 := AddEnemy(r1.store, "set-1", "set-3");
            var r3 := AddEnemy(r2.store, "set-2", "set-3");
            && r1.ok && r2.ok && r3.ok
            && r3.store == Store({Pair("set-1", "set-2")}, {Pair("set-1", "set-3"), Pair("set-2", "set-3")})
            && AddEnemy(r3.store, "set-2", "set-1") == Reply(false, r3.store)
  {
  }
}
