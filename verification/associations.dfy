/** The `set_allies` and `set_enemies` tables (app/models/associations.py):
    rows keyed by `(set_a_id, set_b_id)` under the check `set_a_id < set_b_id`.
    The optional `since_*` columns are never written by the edge operations
    and are not modelled. */
module Associations {
  import opened Wrappers
  import opened Ids

  /** The key of a row: `(set_a_id, set_b_id)`. */
  datatype Pair = Pair(a: Id, b: Id)

  /** A table as the set of its keys. Being a set, it can hold at most one
      row per primary key. */
  type Table = set<Pair>

  /** What the database raises when an insert breaks a table constraint. */
  datatype DbError = CheckViolation | PrimaryKeyViolation

  /** The order check constraint of both tables. */
  predicate Ordered(p: Pair) {
    Less(p.a, p.b)
  }

  predicate WellFormed(t: Table) {
    forall p :: p in t ==> Ordered(p)
  }

  /** `INSERT` of one row: refused when it breaks the order check or
      duplicates a primary key. */
  function Insert(t: Table, p: Pair): (r: Result<Table, DbError>)
    ensures r.Success? <==> Ordered(p) && p !in t
    ensures r.Success? ==> p in r.value && r.value - {p} == t && |r.value| == |t| + 1
    ensures r.Success? && WellFormed(t) ==> WellFormed(r.value)
  {
    if !Ordered(p) then Failure(CheckViolation)
    else if p in t then Failure(PrimaryKeyViolation)
    else Success(t + {p})
  }

  /** The outcome of a `DELETE`: the number of rows removed and what is left. */
  datatype Deleted = Deleted(rowcount: nat, table: Table)

  /** `DELETE ... WHERE set_a_id = p.a AND set_b_id = p.b`. */
  function Delete(t: Table, p: Pair): (r: Deleted)
    ensures p !in r.table && r.table <= t
    ensures r.rowcount + |r.table| == |t|
    ensures forall q :: q in t && q != p ==> q in r.table
    ensures WellFormed(t) ==> WellFormed(r.table)
  {
    if p in t then Deleted(1, t - {p}) else Deleted(0, t)
  }

  /** Both edge tables. */
  datatype Store = Store(allies: Table, enemies: Table)

  /** What the schema itself enforces: each table's own constraints. */
  predicate TablesWellFormed(s: Store) {
    WellFormed(s.allies) && WellFormed(s.enemies)
  }

  /** No constraint relates the two tables: the same pair is accepted by
      both, so a store with a pair that is both ally and enemy satisfies
      every table constraint. Exclusivity rests on the edge operations. */
  lemma NoCrossTableConstraint()
    ensures var p := Pair("a", "b");
            && Insert({}, p).Success?
            && var s := Store(Insert({}, p).value, Insert({}, p).value);
               TablesWellFormed(s) && p in s.allies && p in s.enemies
  {
  }
}
