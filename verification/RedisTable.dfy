/**
The table that allocates Redis databases to modules, and the provider that works on it.
Every SQL statement is one atomic step.
*/
module RedisTable {
  import opened Wrappers

  /** redis_db_allocations: db_number to module_id, None for NULL. */
  type Rows = map<int, Option<string>>

  predicate Slot(n: int) {
    0 <= n < 16
  }

  function ReservedFor(n: int): Option<string> {
    if n == 0 then Some("system") else if n == 1 then Some("core") else if n == 2 then Some("litellm") else None
  }

  predicate ReservedName(m: string) {
    m == "system" || m == "core" || m == "litellm"
  }

  predicate Free(rows: Rows, n: int) {
    n in rows && rows[n].None?
  }

  predicate LeastFree(rows: Rows, n: int) {
    Free(rows, n) && forall k :: k in rows && rows[k].None? ==> n <= k
  }

  /** INSERT ... generate_series(0, count-1) ... ON CONFLICT DO NOTHING. */
  function Inserted(rows: Rows, count: nat): Rows {
    if count == 0 then rows
    else
      var before := Inserted(rows, count - 1);
      if count - 1 in before then before else before[count - 1 := None]
  }

  /** UPDATE ... SET module_id=m WHERE db_number=n AND module_id IS NULL. */
  function Reserved(rows: Rows, n: int, m: string): Rows {
    if Free(rows, n) then rows[n := Some(m)] else rows
  }

  /**
  The seeding statements that fail; nobody looks at their errors, and each runs whatever became of the one
  before.
  */
  datatype SeedFaults = SeedFaults(insert: bool, system: bool, core: bool, litellm: bool)

  const NO_FAULTS := SeedFaults(false, false, false, false)

  function ReservedUnless(fault: bool, rows: Rows, n: int, m: string): Rows {
    if fault then rows else Reserved(rows, n, m)
  }

  /** The seeding statements of MigrateSchema, in order. */
  function Seeded(rows: Rows, faults: SeedFaults): Rows {
    var rows0 := if faults.insert then rows else Inserted(rows, 16);
    var rows1 := ReservedUnless(faults.system, rows0, 0, "system");
    var rows2 := ReservedUnless(faults.core, rows1, 1, "core");
    ReservedUnless(faults.litellm, rows2, 2, "litellm")
  }

  /** The module that seeding puts into a free row, if the statement for it works. */
  function SeedOwner(n: int, faults: SeedFaults): Option<string> {
    if (n == 0 && faults.system) || (n == 1 && faults.core) || (n == 2 && faults.litellm) then None else ReservedFor(n)
  }

  lemma {:induction false} InsertedRows(rows: Rows, count: nat, n: int)
    ensures n in Inserted(rows, count) <==> n in rows || 0 <= n < count
    ensures n in Inserted(rows, count) ==> Inserted(rows, count)[n] == if n in rows then rows[n] else None
  {
    if count > 0 {
      InsertedRows(rows, count - 1, n);
    }
  }

  /**
  What seeding amounts to: the sixteen rows exist, the free ones among the first three are reserved, all else
  stays; less what fails.
  */
  lemma SeededRows(rows: Rows, faults: SeedFaults, n: int)
    ensures n in Seeded(rows, faults) <==> n in rows || (Slot(n) && !faults.insert)
    ensures n in Seeded(rows, faults) ==>
      Seeded(rows, faults)[n] == if n in rows && rows[n].Some? then rows[n] else SeedOwner(n, faults)
  {
    InsertedRows(rows, 16, n);
  }

  function Released(rows: Rows, m: string): Rows {
    map n | n in rows :: if rows[n] == Some(m) then None else rows[n]
  }

  /** The `db` setting of a claim: "auto", a number, or something else. */
  datatype Db = Auto | Number(n: int) | Malformed

  datatype Op = Provision(m: string, db: Db) | Deprovision(m: string) | Seed(faults: SeedFaults)

  /** One operation that is carried out. */
  ghost predicate Works(before: Rows, op: Op, after: Rows) {
    match op
    case Provision(m, Auto) =>
      if exists n :: LeastFree(before, n) then exists n :: LeastFree(before, n) && after == before[n := Some(m)]
      else after == before
    case Provision(m, Number(n)) => after == if 0 <= n <= 15 && Free(before, n) then before[n := Some(m)] else before
    case Provision(_, Malformed) => after == before
    case Deprovision(m) => after == Released(before, m)
    case Seed(faults) => after == Seeded(before, faults)
  }

  /** One operation; a statement that fails changes nothing. */
  ghost predicate Step(before: Rows, op: Op, after: Rows) {
    Works(before, op, after) || after == before
  }

  class CacheProvider {
    var rows: Rows

    /** No statement ever inserts another row. */
    ghost predicate Valid()
      reads this
    {
      forall n :: n in rows ==> Slot(n)
    }

    constructor ()
      ensures Valid() && rows == map[]
    {
      rows := map[];
    }

    /** The statements after CREATE TABLE; each runs whatever became of the one before. */
    method MigrateSchema(faults: SeedFaults)
      requires Valid()
      modifies this
      ensures Valid() && rows == Seeded(old(rows), faults)
    {
      if !faults.insert {
        Insert();
      }
      if !faults.system {
        var _ := Reserve(0, "system");
      }
      if !faults.core {
        var _ := Reserve(1, "core");
      }
      if !faults.litellm {
        var _ := Reserve(2, "litellm");
      }
    }

    /** INSERT ... SELECT g FROM generate_series(0,15) g ON CONFLICT DO NOTHING. */
    method Insert()
      requires Valid()
      modifies this
      ensures Valid() && rows == Inserted(old(rows), 16)
    {
      for n := 0 to 16
        invariant Valid() && rows == Inserted(old(rows), n)
      {
        if n !in rows {
          rows := rows[n := None];
        }
      }
    }

    /** UPDATE ... SET module_id=m WHERE db_number=n AND module_id IS NULL; returns the number of rows affected. */
    method Reserve(n: int, m: string) returns (affected: nat)
      modifies this
      ensures rows == Reserved(old(rows), n, m)
      ensures affected == if Free(old(rows), n) then 1 else 0
    {
      if n in rows && rows[n].None? {
        rows := rows[n := Some(m)];
        return 1;
      }
      return 0;
    }

    /** SELECT db_number ... WHERE module_id IS NULL ORDER BY db_number LIMIT 1. */
    method SelectLeastFree() returns (least: Option<int>)
      requires Valid()
      ensures least.Some? ==> LeastFree(rows, least.value)
      ensures least.None? ==> forall n :: n in rows ==> rows[n].Some?
    {
      for n := 0 to 16
        invariant forall k :: k in rows && k < n ==> rows[k].Some?
      {
        if n in rows && rows[n].None? {
          return Some(n);
        }
      }
      return None;
    }

    /** The database number given out, or None for an error. `fault` is a failing connection. */
    method Provision(m: string, db: Db, fault: bool) returns (dbNum: Option<int>)
      requires Valid()
      modifies this
      ensures Valid()
      ensures if fault then rows == old(rows) else Works(old(rows), Op.Provision(m, db), rows)
      ensures dbNum.Some? ==> Free(old(rows), dbNum.value) && rows == old(rows)[dbNum.value := Some(m)]
      ensures dbNum.None? ==> rows == old(rows)
      ensures !fault && db.Auto? ==>
        (dbNum.None? <==> forall n :: n in old(rows) ==> old(rows)[n].Some?) &&
        (dbNum.Some? ==> LeastFree(old(rows), dbNum.value))
      ensures !fault && db.Number? ==> (dbNum.Some? <==> 0 <= db.n <= 15 && Free(old(rows), db.n))
    {
      if db.Auto? {
        if fault {
          return None;
        }
        var least := SelectLeastFree();
        if least.None? {
          return None;
        }
        rows := rows[least.value := Some(m)];
        return least;
      }
      if db.Malformed? || db.n < 0 || db.n > 15 {
        return None;
      }
      if fault {
        return None;
      }
      var affected := Reserve(db.n, m);
      return if affected == 0 then None else Some(db.n);
    }

    /** Frees the module's own rows, and touches no other. */
    method Deprovision(m: string, fault: bool)
      requires Valid()
      modifies this
      ensures Valid() && rows.Keys == old(rows).Keys
      ensures if fault then rows == old(rows) else Works(old(rows), Op.Deprovision(m), rows)
      ensures forall n :: Free(rows, n) <==> Free(old(rows), n) || (!fault && n in old(rows) && old(rows)[n] == Some(m))
      ensures forall n :: n in rows && !Free(rows, n) ==> rows[n] == old(rows)[n]
    {
      if !fault {
        rows := map n | n in rows :: if rows[n] == Some(m) then None else rows[n];
      }
    }
  }
}
