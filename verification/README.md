# Records of sets, members and incidents: the domain core in Dafny

The application tracks organisations ("sets"), their members and violent
incidents. Nearly all of it is web and database plumbing. This project models
the four pieces with real domain rules:

- **FuzzyDate**: a date known to year, year-month or full precision. The model
  covers validated construction, the English display string, component-wise
  equality and the precision-aware ordering (`wrappers.dfy`, `calendar.dfy`,
  `decimal.dfy`, `fuzzy_date.dfy`, `fuzzy_date_order.dfy`,
  `fuzzy_date_text.dfy`). The request schema keeps its own copy of the
  validation and formatting (`fuzzy_date_schema.dfy`).
- **Ally/enemy edges between sets**: two tables keyed by the ordered pair
  `(set_a_id, set_b_id)`. Each has a primary key and a `set_a_id < set_b_id`
  check. `add_ally`, `remove_ally`, `add_enemy` and `remove_enemy` are modelled
  as pure steps from a store to a reply and a new store (`ids.dfy`,
  `associations.dfy`, `set_relations.dfy`).
- **Member statistics**: kills, assists, shootings committed and times shot,
  counted over the participant rows (`incidents.dfy`, `member_stats.dfy`).
- **Participant outcome rule**: an outcome is required for victims and
  forbidden for everyone else (`incidents.dfy`). The model also covers the
  case where the `outcome` key is omitted, which the validator never sees.

`seed_scenario.dfy` replays the sample data of `seed.py` as concrete lemmas.

Main results:

- The ordering `<` on FuzzyDate is a strict partial order but not a total one.
  It holds exactly when every calendar day the first date may denote comes
  before every day the second may denote.
- The display string is injective on valid dates. A parser reads every valid
  date back from its string.
- The schema validators accept exactly the triples the constructor accepts.
  Both copies of the display format produce the same text.
- Every edge operation keeps two facts true: the ally and enemy tables are
  disjoint, and every stored pair is strictly ordered. The inserts never break
  the order check or the primary key (foreign keys are not modelled). Each
  operation ignores the order of its two arguments.
- The statistics method computes the declarative counts. Each counter is the
  number of matching participant rows.

Parameters instead of I/O: the database tables become immutable values. The
stored `incident_participants` rows become a `seq` passed to the statistics.
Generated UUIDs become arbitrary strings.

## Model

| member | source | states |
|---|---|---|
| Calendar.MonthRange | app/schemas/fuzzy_date.py:33 | `calendar.monthrange` rejects a month outside 1..12 with `IllegalMonth`. Otherwise it gives that month's length in that year, as `Calendar.DaysInMonth` defines it. |
| Calendar.DaysInMonth | app/models/base.py:36 | February has 29 days in a Gregorian leap year and 28 otherwise. Of the other months, exactly April, June, September and November have 30 days; the rest have 31. |
| Calendar.YearLength | app/models/base.py:36 | The month lengths behind `max_day` add up to 366 days in leap years and 365 otherwise. |
| Calendar.YearZeroLikeTwoThousand | app/models/base.py:36 | The `year or 2000` fallback never changes a bound when the year is 0, because 0 and 2000 are both leap years. |
| Decimal.IntToString | app/models/base.py:53 | `str()` of an int is non-empty and made of digits and '-' only, starting with either; with no comma or space it cannot be confused with the separators of the display format. Its meaning is stated by `Decimal.ParseIntRoundTrip` and `Decimal.IntToStringCanonical`. |
| Decimal.IntToStringCanonical | app/models/base.py:53 | `str()` writes the canonical numeral: a leading '-' exactly for negative numbers, "0" as the only numeral starting with '0', and no "-0" prefix. With `Decimal.ParseIntRoundTrip` this fixes the text of every int. |
| Decimal.ParseIntRoundTrip | app/models/base.py:53 | `str()` of an int can be read back, so distinct years or days render differently. |
| FuzzyDates.New | app/models/base.py:23-42 | Construction succeeds exactly for valid triples: nested precision, month in 1..12, and day in 1..days-in-month of the given year. On success it stores the triple unchanged. A month without a year, a day without a month and an out-of-range month each give their own error. A day error carries the real month length. |
| FuzzyDates.IsEmpty | app/models/base.py:113-116 | For a valid date, "empty" (no year) means all three components are absent. |
| FuzzyDates.MonthName | app/models/base.py:55-59 | Every month name has at least three characters and starts with an upper-case letter other than the "U" of "Unknown". |
| FuzzyDates.Format | app/models/base.py:48-63 | The display string is never empty. It is "Unknown" exactly when the year is absent, and no other string starts with "U". Its meaning is stated by `FuzzyDateText.ParseFormat` and `FuzzyDateText.FormatInjective`. |
| FuzzyDates.Lt | app/models/base.py:75-97 | `<` never relates equal dates and needs both years. A strictly earlier year is always less, and less implies a year no later. With equal years, less needs both months, the first no later. Its meaning is stated by `FuzzyDateOrder.LtMeansDefinitelyBefore`. |
| FuzzyDates.Le | app/models/base.py:99-101 | `<=` holds whenever `<` does and never when `>` does. When either year is missing it is plain equality. |
| FuzzyDates.Gt | app/models/base.py:103-107 | `>` never relates equal dates, excludes `<`, and needs both years with the first no earlier. |
| FuzzyDates.Ge | app/models/base.py:109-111 | `>=` holds whenever `>` does and never when `<` does. When either year is missing it is plain equality. |
| FuzzyDates.Eq | app/models/base.py:69-73 | Tuple equality of `(year, month, day)` is exactly equality of dates. |
| FuzzyDateOrder.LtMeansDefinitelyBefore | app/models/base.py:75-97 | For valid dates, `a < b` holds iff every calendar day `a` may denote comes before every day `b` may denote. |
| FuzzyDateOrder.IncomparableOverlap | app/models/base.py:86-95 | For valid dates, when `<` is false in both directions, some calendar day is a possible value of both dates. |
| FuzzyDateOrder.LtIrreflexive | app/models/base.py:75-97 | No date is less than itself. |
| FuzzyDateOrder.LtAsymmetric | app/models/base.py:75-97 | `a < b` excludes `b < a`. |
| FuzzyDateOrder.LtTransitive | app/models/base.py:75-97 | `<` is transitive across mixed precisions. |
| FuzzyDateOrder.Converses | app/models/base.py:99-111 | `>=` is the converse of `<=`. `>` and `<=` never both hold, and `<=` with `>=` forces equality. |
| FuzzyDateOrder.EqIsEquivalence | app/models/base.py:69-73 | Equality is reflexive, symmetric and transitive, and two empty dates are equal. |
| FuzzyDateOrder.LeIsPartialOrder | app/models/base.py:99-101 | `<=` (equal or less) is reflexive, antisymmetric and transitive. |
| FuzzyDateOrder.NotTotal | app/models/base.py:86-88 | The valid dates 2020 and May 2020 are neither `<`, `>`, `==`, `<=` nor `>=` each other. |
| FuzzyDateOrder.IncomparabilityNotTransitive | app/models/base.py:86-91 | January and December 2020 are each incomparable with 2020, yet January < December. So `<` is not a strict weak order and cannot drive a comparison sort. |
| FuzzyDateText.ParseFormat | app/models/base.py:48-63 | Every valid date is read back from its display string ("Unknown", "2020", "June 2020", "June 15, 2020"). |
| FuzzyDateText.FormatInjective | app/models/base.py:48-63 | Two valid dates with the same display string are equal. |
| FuzzyDateSchema.ValidateMonth | app/schemas/fuzzy_date.py:13-22 | A month is accepted iff it is null, or the validated year is non-null and the month is in 1..12. An accepted value is returned unchanged. Each failure gives its own error. |
| FuzzyDateSchema.ValidateDay | app/schemas/fuzzy_date.py:24-36 | A day is accepted iff it is null, or the validated month is in 1..12, the year is known and the day fits the month. The year defaults to 2000 only when its key is absent. An accepted value is returned unchanged. With a calendar month, a present null year gives `YearIsNull`, which stands for a `TypeError`. A month outside 1..12 gives `IllegalMonth`. A day outside the month gives `DayOutOfRange` with that month's real length. |
| FuzzyDateSchema.Validate | app/schemas/fuzzy_date.py:7-36 | Whole-instance validation keeps the fields unchanged on success and reports one or two errors on failure. A month without a year is reported. A day whose month failed validation is reported as a day without a month. |
| FuzzyDateSchema.ToString | app/schemas/fuzzy_date.py:38-53 | `to_string` gives "Unknown" exactly when the year is null, and a year-only date reads back as its year. Its full meaning is stated by `FuzzyDateSchema.ToStringAgreesWithFormat`. |
| FuzzyDateSchema.SchemaAgreesWithConstructor | app/schemas/fuzzy_date.py:13-36 | The schema accepts exactly the triples `FuzzyDate.__init__` accepts. The `TypeError` path is never reached. |
| FuzzyDateSchema.ToStringAgreesWithFormat | app/schemas/fuzzy_date.py:38-53 | `to_string` and `FuzzyDate.__str__` produce the same text for the same triple. |
| Ids.LessIrreflexive | app/crud/set.py:72 | No id is less than itself under Python string order. |
| Ids.LessAsymmetric | app/crud/set.py:72 | Python string `<` is asymmetric. |
| Ids.LessTransitive | app/crud/set.py:72 | Python string `<` is transitive. |
| Ids.LessTotal | app/crud/set.py:72 | Any two distinct ids are ordered one way or the other. |
| Associations.Insert | app/models/associations.py:8-29 | Under the order check and the primary key (the only constraints modelled), an insert succeeds iff the pair satisfies `set_a_id < set_b_id` and its key is new. It then adds exactly that row and keeps the table well formed. |
| Associations.Delete | app/crud/set.py:104-110 | A delete removes the matching row and keeps every other row. The row count is 1 iff the row was present. |
| Associations.NoCrossTableConstraint | app/models/associations.py:8-29 | The table constraints alone accept the same pair as both ally and enemy, so exclusivity depends only on the edge operations. |
| SetRelations.Canon | app/crud/set.py:72 | The canonical key holds the two given ids. It is strictly ordered when they differ. |
| SetRelations.CanonSymmetric | app/crud/set.py:72 | Swapping the ids gives the same canonical key. |
| SetRelations.Add | app/crud/set.py:66-144 | An add succeeds iff the ids differ and the pair is not an edge of the other kind. On failure the store is unchanged. On success its own table becomes the old table plus the canonical pair. The other table is never touched. The state invariant is preserved. |
| SetRelations.Remove | app/crud/set.py:100-157 | A remove reports true iff the canonical pair was in its table. It deletes exactly that pair, leaves the other table alone and preserves the invariant. |
| SetRelations.ArgumentOrderIrrelevant | app/crud/set.py:66-157 | Swapping the two arguments of any operation gives the same reply and the same store. |
| SetRelations.AddNeverViolatesConstraints | app/crud/set.py:92-95 | The row an add inserts always passes the order check and the primary key, whatever the store holds. |
| SetRelations.AddIdempotent | app/crud/set.py:83-90 | Repeating an add returns the same reply and changes nothing more. |
| SetRelations.RemoveTwice | app/crud/set.py:100-110 | A second remove of the same pair reports false and changes nothing. |
| SetRelations.AddThenRemove | app/crud/set.py:92-110 | Adding a pair with no edge and then removing it restores the original store. |
| SetRelations.RelationShape | app/crud/set.py:72-90 | Under the invariant, the relation between two sets is symmetric and never relates a set to itself. Reading the enemy table agrees with the stored rows. |
| SetRelations.AddAsTransition | app/crud/set.py:66-144 | Per pair, with states NONE, ALLY and ENEMY: an add succeeds iff the pair is not related by the other kind. Afterwards the pair has the added kind, and no other pair changes. |
| SetRelations.RemoveAsTransition | app/crud/set.py:100-157 | A remove succeeds iff the pair had that kind. Afterwards the pair lacks it, and no other pair changes. |
| Incidents.ValidateOutcome | app/schemas/incident.py:14-23 | An outcome is accepted iff it is present exactly when the role is VICTIM. A victim without an outcome and a non-victim with one each get their own error. An accepted outcome is returned unchanged. |
| Incidents.AdmitOutcome | app/schemas/incident.py:10-23 | As written: an omitted `outcome` is admitted as null without running the validator. A given value is admitted iff it is present exactly when the role is VICTIM. An admitted outcome implies the VICTIM role. |
| Incidents.OmittedVictimOutcomeAdmitted | app/schemas/incident.py:10-20 | A VICTIM whose `outcome` key is omitted is admitted with no outcome. The same VICTIM with an explicit null is rejected with `OutcomeRequired`. |
| Incidents.AdmitOutcomeValidatingDefault | app/schemas/incident.py:14-23 | Corrected: the validator also runs on the default. An admitted participant then has an outcome iff it is a VICTIM, and an omitted outcome for a VICTIM is rejected. |
| Incidents.IntendedAdmissionMatchesAccepted | app/schemas/incident.py:14-23 | Under the corrected admission, omitting the key is the same as sending null, and the admitted participants are exactly the accepted ones. |
| MemberStats.FatalIncidents | app/crud/member.py:72-77 | An incident id is in the sub-query result iff some row of that incident is a VICTIM with outcome KILLED. |
| MemberStats.CountIsNumberOfRows | app/crud/member.py:69-102 | Each counter equals the number of participant rows that pass its filter. |
| MemberStats.CollectFatalIncidents | app/crud/member.py:72-77 | The first pass collects exactly the ids of incidents with a killed victim. |
| MemberStats.CountRows | app/crud/member.py:69-102 | The second pass gives each counter as the count of the member's rows that pass its filter. |
| MemberStats.GetMemberStats | app/crud/member.py:66-109 | The two-pass computation returns exactly the declarative counts. Kills and assists are the member's PERPETRATOR and ACCOMPLICE rows in incidents with a killed victim. Shootings committed and times shot are all of the member's PERPETRATOR and VICTIM rows. |
| MemberStats.ToDict | app/crud/member.py:104-109 | The result has exactly the keys `kills`, `assists`, `shootings_committed` and `times_shot`, each holding its counter. |
| MemberStats.StatsOf | app/crud/member.py:69-102 | The declarative statistics: a member's kills never exceed their shootings committed. What each counter counts is stated by `MemberStats.CountIsNumberOfRows`. |
| MemberStats.NoRowsNoStats | app/crud/member.py:78-102 | A member without rows has all four counters at zero. |
| MemberStats.ExtraKilledVictim | app/crud/member.py:69-90 | A second killed victim in an incident that already had one changes no kills or assists. Counting is per row, not per victim. |
| SeedScenario.SeededStats | seed.py:124-171 | With the seeded incidents, John Doe has kills=1, assists=0, shootings_committed=1 and times_shot=1. The other seeded members and an uninvolved member get their expected counters. |
| SeedScenario.SeededParticipantsAccepted | seed.py:132-170 | Every seeded participant passes the outcome validator. |
| SeedScenario.SeededEdges | seed.py:69-71 | From an empty store, the seeded ally and enemy edges all succeed and store the expected canonical rows. The seeded allies cannot then be made enemies. |
| SeedScenario.SeededDates | seed.py:128-130 | The seeded date June 15, 2020 is valid and displays as "June 15, 2020". Further examples: 2015 displays as "2015", the empty date as "Unknown", February 29, 2021 is rejected with max day 28, and a month without a year is rejected. |

Facts about the code that the model keeps:

- The constructor's day-range check reads the year as `year or 2000`, so a
  missing year or year 0 is checked against 2000, a leap year. This never
  changes a result: a day needs a month, a month needs a year, and year 0 has
  the same month lengths as 2000. The schema's day check reads
  `info.data.get('year', 2000)` instead: only an absent key defaults to 2000,
  a null year reaches `calendar.monthrange` and raises `TypeError`, and year 0
  is passed on as 0.
- "Kills" and "assists" count the member's participant rows in incidents with
  a killed victim, one per row. The killed victim may be the member: a member
  who is both a perpetrator and a killed victim of the same incident is
  credited with a kill.
- `add_ally` and `add_enemy` return false both for a self-edge and for a pair
  that already has an edge of the other kind. `remove_ally` and `remove_enemy`
  return false when no row exists.

## Findings

| source | as written | input that shows it | evidently intended | confidence | as-written member | corrected member |
|---|---|---|---|---|---|---|
| app/schemas/incident.py:11-20 | `outcome` defaults to `None` and `validate_outcome` is a plain field validator, which pydantic does not run on a defaulted field | a participant with role VICTIM and no `outcome` key is admitted with no outcome | the docstring "Outcome required for victims": every admitted victim has an outcome | medium, not executed | Incidents.AdmitOutcome, Incidents.OmittedVictimOutcomeAdmitted | Incidents.AdmitOutcomeValidatingDefault, Incidents.IntendedAdmissionMatchesAccepted |

## Left out

- HTTP routes, templates, authentication, configuration and the generic
  create/get/update/delete/search functions: request plumbing and thin
  database wrappers with no domain rule.
- The `Set.allies` / `Set.enemies` ORM relationships and the graph builder.
  They only join `set_a_id -> set_b_id`, so no symmetric "allies of a set"
  query is modelled.
- The `since_year` / `since_month` / `since_day` columns of the edge tables.
  The edge operations never write them.
- Associations.Insert: models only the order check and the primary key. The
  `ForeignKey("sets.id")` constraints on both key columns of both tables are
  left out: the model assumes every id names an existing set, or that foreign
  keys are not enforced (SQLite's default, with the configured SQLite
  database). It also assumes the database compares ids in the CHECK by code
  point, as SQLite's default BINARY collation does; `Ids.Less` is that order.
- Concurrency: each edge operation is one atomic step. The read-check-insert
  race between two concurrent adds is not modelled.
- Pydantic's skipping of validators for defaulted fields, for the FuzzyDate
  schema only: each of its validators accepts a null value, so skipping it
  gives the same outcome. For the participant `outcome` the skip does change
  the outcome (a VICTIM with the key omitted is admitted without an outcome,
  while the validator rejects a null one); `Incidents.AdmitOutcome` models
  this, and `Incidents.ValidateOutcome` describes the validator alone.
- The `NotImplemented` / `isinstance` branches for non-FuzzyDate operands,
  `__repr__` and `__composite_values__`: Python object protocol only.
- FuzzyDates.Format: requires a month in 1..12. For any other month Python's
  `month_names[self.month - 1]` either takes a name from the end of the list
  (months -11..0) or raises `IndexError` (13 and above, -12 and below). No
  constructed FuzzyDate has such a month, so neither behaviour is modelled.
- FuzzyDateSchema.ToString: requires a month in 1..12 for the same reason;
  `to_string` indexes `month_names[self.month - 1]` the same way, and a
  validated schema instance always has such a month because
  `validate_month` rejects any other.
- Calendar.MonthRange: models only the day count of `calendar.monthrange`,
  not the weekday. The model assumes a Python version whose `monthrange`
  accepts any integer year (3.8 and later).
- Participant notes, incident types, locations and descriptions: free text
  that no rule reads.
