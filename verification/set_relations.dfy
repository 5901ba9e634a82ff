/** The symmetric ally/enemy edges between sets (`add_ally`, `remove_ally`,
    `add_enemy`, `remove_enemy` in app/crud/set.py). Each call is one atomic
    step from a store to a reply and a new store. */
module SetRelations {
  import opened Wrappers
  import opened Ids
  import opened Associations

  datatype Kind = Ally | Enemy

  function Other(k: Kind): Kind {
    match k
    case Ally => Enemy
    case Enemy => Ally
  }

  function TableOf(s: Store, k: Kind): Table {
    match k
    case Ally => s.allies
    case Enemy => s.enemies
  }

  function WithTable(s: Store, k: Kind, t: Table): (r: Store)
    ensures TableOf(r, k) == t && TableOf(r, Other(k)) == TableOf(s, Other(k))
  {
    match k
    case Ally => s.(allies := t)
    case Enemy => s.(enemies := t)
  }

  /** The canonical key of an unordered pair: the smaller id first. */
  function Canon(x: Id, y: Id): (p: Pair)
    ensures {p.a, p.b} == {x, y}
    ensures x != y ==> Ordered(p)
  {
    LessTotal(x, y);
    if Less(x, y) then Pair(x, y) else Pair(y, x)
  }

  /** The state invariant: every row satisfies its table's order check, and
      no pair is both an ally and an enemy edge. */
  predicate Inv(s: Store) {
    TablesWellFormed(s) && s.allies !! s.enemies
  }

  /** The boolean each operation returns, and the store afterwards. */
  datatype Reply = Reply(ok: bool, store: Store)

  /** `add_ally` (k = Ally) and `add_enemy` (k = Enemy): a self-edge and an
      existing edge of the other kind are refused, an existing edge of the
      same kind is reported as success without a write, and otherwise the
      canonical pair is inserted. The insert is always accepted by the table
      constraints (see `AddNeverViolatesConstraints`). */
  function Add(k: Kind, s: Store, x: Id, y: Id): (r: Reply)
    ensures r.ok <==> x != y && Canon(x, y) !in TableOf(s, Other(k))
    ensures !r.ok ==> r.store == s
    ensures r.ok ==> TableOf(r.store, k) == TableOf(s, k) + {Canon(x, y)}
    ensures TableOf(r.store, Other(k)) == TableOf(s, Other(k))
    ensures Inv(s) ==> Inv(r.store)
  {
    if x == y then Reply(false, s)
    else
      var p := Canon(x, y);
      if p in TableOf(s, Other(k)) then Reply(false, s)
      else if p in TableOf(s, k) then Reply(true, s)
      else Reply(true, WithTable(s, k, Insert(TableOf(s, k), p).value))
  }

  /** `remove_ally` / `remove_enemy`: delete the canonical pair and report
      whether a row was removed. */
  function Remove(k: Kind, s: Store, x: Id, y: Id): (r: Reply)
    ensures r.ok <==> Canon(x, y) in TableOf(s, k)
    ensures TableOf(r.store, k) == TableOf(s, k) - {Canon(x, y)}
    ensures TableOf(r.store, Other(k)) == TableOf(s, Other(k))
    ensures Inv(s) ==> Inv(r.store)
  {
    var d := Delete(TableOf(s, k), Canon(x, y));
    Reply(d.rowcount > 0, WithTable(s, k, d.table))
  }

  function AddAlly(s: Store, x: Id, y: Id): Reply { Add(Ally, s, x, y) }
  function RemoveAlly(s: Store, x: Id, y: Id): Reply { Remove(Ally, s, x, y) }
  function AddEnemy(s: Store, x: Id, y: Id): Reply { Add(Enemy, s, x, y) }
  function RemoveEnemy(s: Store, x: Id, y: Id): Reply { Remove(Enemy, s, x, y) }

  /** Swapping the two ids gives the same key. */
  lemma CanonSymmetric(x: Id, y: Id)
    ensures Canon(x, y) == Canon(y, x)
  {
    LessAsymmetric(x, y);
  }

  /** Every operation treats its two ids as an unordered pair. */
  lemma ArgumentOrderIrrelevant(k: Kind, s: Store, x: Id, y: Id)
    ensures Add(k, s, x, y) == Add(k, s, y, x)
    ensures Remove(k, s, x, y) == Remove(k, s, y, x)
  {
    CanonSymmetric(x, y);
  }

  /** The insert performed by an add never breaks the order check or the
      primary key of its table, whatever the store holds. */
  lemma AddNeverViolatesConstraints(k: Kind, s: Store, x: Id, y: Id)
    requires x != y && Canon(x, y) !in TableOf(s, k)
    ensures Insert(TableOf(s, k), Canon(x, y)).Success?
  {
  }

  /** Adding twice is adding once. */
  lemma AddIdempotent(k: Kind, s: Store, x: Id, y: Id)
    ensures var r := Add(k, s, x, y); Add(k, r.store, x, y) == r
  {
  }

  /** Removing twice: the second call finds nothing. */
  lemma RemoveTwice(k: Kind, s: Store, x: Id, y: Id)
    ensures var r := Remove(k, s, x, y); Remove(k, r.store, x, y) == Reply(false, r.store)
  {
  }

  /** Adding an edge that did not exist and removing it again restores the store. */
  lemma AddThenRemove(k: Kind, s: Store, x: Id, y: Id)
    requires x != y
    requires Canon(x, y) !in s.allies && Canon(x, y) !in s.enemies
    ensures Add(k, s, x, y).ok
    ensures Remove(k, Add(k, s, x, y).store, x, y) == Reply(true, s)
  {
  }

  /** The relation between two sets as the add operations look a pair up. */
  function Relation(s: Store, x: Id, y: Id): Option<Kind> {
    var p := Canon(x, y);
    if p in s.allies then Some(Ally)
    else if p in s.enemies then Some(Enemy)
    else None
  }

  /** The undirected edge view of a store that keeps the invariant: the
      relation is symmetric, no set is related to itself, and the enemy table
      is read back faithfully even though the ally table is consulted first. */
  lemma RelationShape(s: Store, x: Id, y: Id)
    requires Inv(s)
    ensures Relation(s, x, y) == Relation(s, y, x)
    ensures Relation(s, x, x) == None
    ensures Relation(s, x, y) == Some(Enemy) <==> Canon(x, y) in s.enemies
  {
    CanonSymmetric(x, y);
    LessIrreflexive(x);
  }

  /** The per-pair state machine NONE / ALLY / ENEMY: an add of kind k
      succeeds exactly when the pair is not related by the other kind, leaves
      the pair related by k, and changes the relation of no other pair. The
      direct switch ALLY -> ENEMY (or back) is always refused. */
  lemma AddAsTransition(k: Kind, s: Store, x: Id, y: Id, u: Id, v: Id)
    requires Inv(s) && x != y
    ensures Add(k, s, x, y).ok <==> Relation(s, x, y) != Some(Other(k))
    ensures Add(k, s, x, y).ok ==> Relation(Add(k, s, x, y).store, x, y) == Some(k)
    ensures Canon(u, v) != Canon(x, y) ==> Relation(Add(k, s, x, y).store, u, v) == Relation(s, u, v)
  {
  }

  /** A remove of kind k ends with the pair not related by k; it reports
      success exactly when the pair was related by k, and changes the
      relation of no other pair. */
  lemma RemoveAsTransition(k: Kind, s: Store, x: Id, y: Id, u: Id, v: Id)
    requires Inv(s)
    ensures Remove(k, s, x, y).ok <==> Relation(s, x, y) == Some(k)
    ensures Relation(Remove(k, s, x, y).store, x, y) != Some(k)
    ensures Canon(u, v) != Canon(x, y) ==> Relation(Remove(k, s, x, y).store, u, v) == Relation(s, u, v)
  {
  }
}
