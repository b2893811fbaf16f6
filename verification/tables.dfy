/** A relational table with an auto-increment primary key: the rows by id and
    the least id the next insert can receive. Ids start at 1 and are never
    reused. A refused request rolls its inserts back and leaves `next` as it
    was, whereas InnoDB keeps the ids such inserts consumed, so the id the
    database hands out may be larger than `next`. */
module Tables {

  datatype Table<T> = Table(rows: map<int, T>, next: int)
  {
    /** Every stored id is positive and below the next id to hand out. */
    ghost predicate Valid()
    {
      && 1 <= next
      && forall k :: k in rows ==> 1 <= k < next
    }
  }

  function Empty<T>(): (t: Table<T>)
    ensures t.Valid() && t.rows == map[]
  {
    Table(map[], 1)
  }

  /** INSERT: the row receives a fresh id; every other row is unchanged. */
  function Insert<T>(t: Table<T>, row: T): (r: (Table<T>, int))
    requires t.Valid()
    ensures r.1 !in t.rows && r.1 == t.next
    ensures r.0.rows == t.rows[r.1 := row]
    ensures r.0.next == t.next + 1
    ensures r.0.Valid()
  {
    (Table(t.rows[t.next := row], t.next + 1), t.next)
  }

  /** INSERT of several rows, in order: they receive consecutive fresh ids. */
  function InsertAll<T>(t: Table<T>, rs: seq<T>): (r: Table<T>)
    requires t.Valid()
    ensures r.Valid() && r.next == t.next + |rs|
    ensures forall k :: k in r.rows <==> k in t.rows || t.next <= k < t.next + |rs|
    ensures forall k :: k in t.rows ==> r.rows[k] == t.rows[k]
    ensures forall i :: 0 <= i < |rs| ==> r.rows[t.next + i] == rs[i]
    decreases |rs|
  {
    if rs == [] then t
    else
      var r := InsertAll(Insert(t, rs[0]).0, rs[1..]);
      assert forall j :: 0 <= j < |rs| - 1 ==> r.rows[t.next + 1 + j] == rs[1..][j];
      r
  }

  /** A row that InsertAll added holds the element of `rs` at its offset
      from the old next id. (Kept out of InsertAll's own contract, where it
      would restate the clause above in a form the solver loops on.) */
  lemma InsertAllNewRow<T>(t: Table<T>, rs: seq<T>, k: int)
    requires t.Valid() && k in InsertAll(t, rs).rows && k !in t.rows
    ensures t.next <= k < t.next + |rs| && InsertAll(t, rs).rows[k] == rs[k - t.next]
  {
    assert InsertAll(t, rs).rows[t.next + (k - t.next)] == rs[k - t.next];
  }

  /** UPDATE of one existing row. */
  function Put<T>(t: Table<T>, k: int, row: T): (r: Table<T>)
    requires k in t.rows
    ensures r.rows.Keys == t.rows.Keys && r.rows[k] == row
    ensures forall j :: j in t.rows && j != k ==> r.rows[j] == t.rows[j]
    ensures r.next == t.next
    ensures t.Valid() ==> r.Valid()
  {
    Table(t.rows[k := row], t.next)
  }

  /** DELETE of every row whose id is in `ks`; ids are not handed out again. */
  function Remove<T>(t: Table<T>, ks: set<int>): (r: Table<T>)
    ensures r.rows.Keys == t.rows.Keys - ks
    ensures forall j :: j in r.rows ==> r.rows[j] == t.rows[j]
    ensures r.next == t.next
    ensures t.Valid() ==> r.Valid()
  {
    Table(map j | j in t.rows && j !in ks :: t.rows[j], t.next)
  }
}
