/**
 * The products table behind the repository, as an abstract map from id to
 * row. SQL text, the driver and context cancellation are not modelled; what
 * the database answers is given to each operation as a parameter: the fault
 * it reports, if any, and for a listing the row whose scan fails, if any.
 */
module Repository {
  import opened Models

  /** A failure reported by the database driver, passed on unchanged. */
  datatype Fault = Fault(detail: GoString)

  /** The scan of result row `row` (counted from 0) fails with `fault`. */
  datatype ScanFault = ScanFault(row: nat, fault: Fault)

  /**
   * What the repository returns as an error: its own "product not found"
   * (a fresh errors.New value on every call) or the driver's fault.
   */
  datatype RepoError = ProductNotFound | Storage(fault: Fault) {
    function Error(): (r: GoString)
      ensures ProductNotFound? ==> r == "product not found"
      ensures Storage? ==> r == fault.detail
    {
      match this
      case ProductNotFound => "product not found"
      case Storage(f) => f.detail
    }
  }

  /** Every row is stored under its own id, and ids are positive (a serial key). */
  ghost predicate WellKeyed(t: map<int, Product>) {
    forall id | id in t :: id > 0 && t[id].id == id
  }

  ghost function IdSet(rows: seq<Product>): set<int> {
    set i | 0 <= i < |rows| :: rows[i].id
  }

  ghost predicate DistinctIds(rows: seq<Product>) {
    forall i, j | 0 <= i < j < |rows| :: rows[i].id != rows[j].id
  }

  /** Every row of `rows` is a stored row, and no row comes twice. */
  ghost predicate RowsOf(rows: seq<Product>, t: map<int, Product>) {
    && (forall i | 0 <= i < |rows| :: rows[i].id in t && t[rows[i].id] == rows[i])
    && DistinctIds(rows)
  }

  /** `rows` lists table `t` in some order: each stored row once, and nothing else. */
  ghost predicate Lists(rows: seq<Product>, t: map<int, Product>) {
    && RowsOf(rows, t)
    && (forall id | id in t :: exists i | 0 <= i < |rows| :: rows[i].id == id)
  }

  lemma {:induction false} DistinctIdsCount(rows: seq<Product>)
    requires DistinctIds(rows)
    ensures |IdSet(rows)| == |rows|
  {
    if rows != [] {
      var init := rows[..|rows| - 1];
      var last := rows[|rows| - 1];
      DistinctIdsCount(init);
      assert IdSet(rows) == IdSet(init) + {last.id};
      assert last.id !in IdSet(init);
    }
  }

  /** A listing has exactly as many rows as the table. */
  lemma ListsHasTableSize(rows: seq<Product>, t: map<int, Product>)
    requires Lists(rows, t)
    ensures |rows| == |t|
  {
    DistinctIdsCount(rows);
    forall id | id in t ensures id in IdSet(rows) {
      var i :| 0 <= i < |rows| && rows[i].id == id;
    }
    assert IdSet(rows) == t.Keys;
  }

  /** Distinct stored rows as many as the table has are the whole table. */
  lemma FullRowsAreListing(rows: seq<Product>, t: map<int, Product>)
    requires RowsOf(rows, t) && |rows| == |t|
    ensures Lists(rows, t)
  {
    DistinctIdsCount(rows);
    var ids := IdSet(rows);
    assert ids <= t.Keys;
    assert |t.Keys - ids| == 0;
    forall id | id in t ensures exists i | 0 <= i < |rows| :: rows[i].id == id {
      assert id in ids;
    }
  }

  /**
   * How many rows `rows.Next()` hands out: all of them, unless the driver
   * stops the iteration early (a broken connection, a cancelled request).
   */
  function Delivered(t: map<int, Product>, nextStop: Option<nat>): (n: nat)
    ensures n <= |t|
    ensures n < |t| <==> nextStop.Some? && nextStop.value < |t|
  {
    if nextStop.Some? && nextStop.value < |t| then nextStop.value else |t|
  }

  /** The scan of one of the delivered rows fails. */
  predicate ScanFails(scanFault: Option<ScanFault>, delivered: nat) {
    scanFault.Some? && scanFault.value.row < delivered
  }

  lemma NonEmptyHasMember(ids: set<int>)
    requires ids != {}
    ensures exists id :: id in ids
  {
    if forall id :: id !in ids {
      assert false;
    }
  }

  /** A bound above every id in use, so that a fresh positive id always exists. */
  ghost function UpperBound(ids: set<int>): (b: int)
    ensures b >= 1 && forall id | id in ids :: id < b
  {
    if ids == {} then 1
    else
      NonEmptyHasMember(ids);
      var x :| x in ids;
      var rest := UpperBound(ids - {x});
      assert forall id | id in ids :: id == x || id in ids - {x};
      if x + 1 > rest then x + 1 else rest
  }

  /** productRepo over the products table. */
  class ProductRepository {
    var table: map<int, Product>

    ghost predicate Valid()
      reads this
    {
      WellKeyed(table)
    }

    constructor ()
      ensures Valid() && table == map[]
    {
      table := map[];
    }

    /**
     * SELECT every row, appending each scanned row in the order the database
     * yields them. A failing query or a failing scan returns only the error.
     * The loop never asks `rows.Err()`: when the driver stops the iteration
     * early, the rows read so far come back with no error. The statement has
     * no ORDER BY, LIMIT or OFFSET.
     */
    method GetAll(queryFault: Option<Fault>, scanFault: Option<ScanFault>, nextStop: Option<nat>)
      returns (r: Result<seq<Product>, RepoError>)
      requires Valid()
      ensures queryFault.Some? ==> r == Err(Storage(queryFault.value))
      ensures queryFault.None? && ScanFails(scanFault, Delivered(table, nextStop)) ==>
                r == Err(Storage(scanFault.value.fault))
      ensures queryFault.None? && !ScanFails(scanFault, Delivered(table, nextStop)) ==>
                r.Ok? && RowsOf(r.value, table) && |r.value| == Delivered(table, nextStop)
      ensures r.Ok? && Delivered(table, nextStop) == |table| ==> Lists(r.value, table)
    {
      if queryFault.Some? {
        return Err(Storage(queryFault.value));
      }
      var products: seq<Product> := [];
      var pending := table.Keys;
      while pending != {} && (nextStop.None? || |products| < nextStop.value)
        invariant pending <= table.Keys
        invariant |products| + |pending| == |table|
        invariant RowsOf(products, table)
        invariant forall i | 0 <= i < |products| :: products[i].id !in pending
        invariant nextStop.Some? ==> |products| <= nextStop.value
        invariant scanFault.Some? ==> scanFault.value.row >= |products|
        decreases |pending|
      {
        NonEmptyHasMember(pending);
        var id :| id in pending;
        if scanFault.Some? && scanFault.value.row == |products| {
          return Err(Storage(scanFault.value.fault));
        }
        products := products + [table[id]];
        pending := pending - {id};
      }
      if |products| == |table| {
        FullRowsAreListing(products, table);
      }
      return Ok(products);
    }

    method GetByID(id: int, fault: Option<Fault>) returns (r: Result<Product, RepoError>)
      requires Valid()
      ensures fault.Some? ==> r == Err(Storage(fault.value))
      ensures fault.None? && id in table ==> r == Ok(table[id])
      ensures fault.None? && id !in table ==> r == Err(ProductNotFound)
      ensures r.Ok? ==> r.value.id == id
    {
      if fault.Some? {
        return Err(Storage(fault.value));
      }
      if id !in table {
        return Err(ProductNotFound);
      }
      return Ok(table[id]);
    }

    /**
     * INSERT ... RETURNING id: the database picks an unused positive id; the
     * result is the given product carrying it. The given id is ignored.
     */
    method Create(p: Product, fault: Option<Fault>) returns (r: Result<Product, RepoError>)
      requires Valid()
      modifies this
      ensures Valid()
      ensures fault.Some? ==> r == Err(Storage(fault.value)) && table == old(table)
      ensures fault.None? ==> && r.Ok?
                              && r.value == p.(id := r.value.id)
                              && r.value.id > 0 && r.value.id !in old(table)
                              && table == old(table)[r.value.id := r.value]
    {
      if fault.Some? {
        return Err(Storage(fault.value));
      }
      ghost var bound := UpperBound(table.Keys);
      assert bound > 0 && bound !in table;
      var id :| id > 0 && id !in table;
      var created := p.(id := id);
      table := table[id := created];
      return Ok(created);
    }

    /** UPDATE ... WHERE id: zero rows affected is "not found". */
    method Update(p: Product, fault: Option<Fault>) returns (err: Option<RepoError>)
      requires Valid()
      modifies this
      ensures Valid()
      ensures fault.Some? ==> err == Some(Storage(fault.value)) && table == old(table)
      ensures fault.None? && p.id !in old(table) ==> err == Some(ProductNotFound) && table == old(table)
      ensures fault.None? && p.id in old(table) ==> err == None && table == old(table)[p.id := p]
    {
      if fault.Some? {
        return Some(Storage(fault.value));
      }
      if p.id !in table {
        return Some(ProductNotFound);
      }
      table := table[p.id := p];
      return None;
    }

    /** DELETE ... WHERE id: zero rows affected is "not found". */
    method Delete(id: int, fault: Option<Fault>) returns (err: Option<RepoError>)
      requires Valid()
      modifies this
      ensures Valid()
      ensures fault.Some? ==> err == Some(Storage(fault.value)) && table == old(table)
      ensures fault.None? && id !in old(table) ==> err == Some(ProductNotFound) && table == old(table)
      ensures fault.None? && id in old(table) ==> err == None && table == old(table) - {id}
    {
      if fault.Some? {
        return Some(Storage(fault.value));
      }
      if id !in table {
        return Some(ProductNotFound);
      }
      table := table - {id};
      return None;
    }
  }
}
