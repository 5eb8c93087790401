/**
What holds of the allocation table over every run: sixteen rows, three of them reserved,
and owners that keep their slots.
*/
module RedisAllocator {
  import opened Wrappers
  import opened RedisTable

  /** Sixteen rows, the first three reserved. */
  ghost predicate Inv(rows: Rows) {
    (forall n :: n in rows <==> 0 <= n < 16) && rows[0] == Some("system") && rows[1] == Some("core") &&
    rows[2] == Some("litellm")
  }

  predicate OrdinaryModule(op: Op) {
    op.Seed? || !ReservedName(op.m)
  }

  /** All rows are there, and the first three are taken. */
  ghost predicate Prepared(rows: Rows) {
    (forall n :: Slot(n) ==> n in rows) && Taken(rows, 0) && Taken(rows, 1) && Taken(rows, 2)
  }

  predicate Taken(rows: Rows, n: int) {
    n in rows && rows[n].Some?
  }

  /** Seeding an empty table sets it up exactly when no statement fails. */
  lemma SeedingStarts(faults: SeedFaults)
    ensures Inv(Seeded(map[], faults)) <==> faults == NO_FAULTS
  {
    forall n ensures n in Seeded(map[], faults) <==> Slot(n) && !faults.insert {
      SeededRows(map[], faults, n);
    }
    SeededRows(map[], faults, 0);
    SeededRows(map[], faults, 1);
    SeededRows(map[], faults, 2);
    assert Slot(0);
  }

  /** Seeding again changes nothing exactly when all rows are there and the first three are taken. */
  lemma SeedingIsNoOp(rows: Rows)
    ensures Seeded(rows, NO_FAULTS) == rows <==>
      Prepared(rows)
  {
    SeededRows(rows, NO_FAULTS, 0);
    SeededRows(rows, NO_FAULTS, 1);
    SeededRows(rows, NO_FAULTS, 2);
    if Seeded(rows, NO_FAULTS) == rows {
      forall n | Slot(n) ensures n in rows {
        SeededRows(rows, NO_FAULTS, n);
      }
    } else if Prepared(rows) {
      FailingSeedingIsNoOp(rows, NO_FAULTS);
    }
  }

  /** Then it also changes nothing whichever of its statements fail. */
  lemma FailingSeedingIsNoOp(rows: Rows, faults: SeedFaults)
    requires Prepared(rows)
    ensures Seeded(rows, faults) == rows
  {
    var seeded := Seeded(rows, faults);
    forall n ensures (n in seeded <==> n in rows) && (n in rows ==> seeded[n] == rows[n]) {
      SeededRows(rows, faults, n);
    }
  }

  /** Deprovisioning a module keeps the table set up exactly when it is not one of the reserved names. */
  lemma ReleaseKeepsInv(rows: Rows, m: string)
    requires Inv(rows)
    ensures Inv(Released(rows, m)) <==> !ReservedName(m)
  {
  }

  /** It frees exactly the slots that the module owns. */
  lemma ReleaseFreesOwnSlots(rows: Rows, m: string, n: int)
    requires n in rows
    ensures n in Released(rows, m)
    ensures Free(Released(rows, m), n) <==> Free(rows, n) || rows[n] == Some(m)
    ensures rows[n] != Some(m) ==> Released(rows, m)[n] == rows[n]
  {
  }

  lemma StepKeepsInv(before: Rows, op: Op, after: Rows)
    requires Inv(before) && OrdinaryModule(op) && Step(before, op, after)
    ensures Inv(after)
  {
    match op
    case Provision(_, _) =>
    case Deprovision(m) => ReleaseKeepsInv(before, m);
    case Seed(faults) => FailingSeedingIsNoOp(before, faults);
  }

  /** An owned slot changes hands in no step but a Deprovision of its owner. */
  lemma StepKeepsOwner(before: Rows, op: Op, after: Rows, n: int, m: string)
    requires Step(before, op, after) && n in before && before[n] == Some(m) && op != Deprovision(m)
    ensures n in after && after[n] == Some(m)
  {
    if op.Seed? {
      SeededRows(before, op.faults, n);
    }
  }

  /** A run: the tables before, between and after its operations, any of which may fail. */
  ghost predicate IsRun(trace: seq<Rows>, ops: seq<Op>) {
    |trace| == |ops| + 1 && forall i :: 0 <= i < |ops| ==> Step(trace[i], ops[i], trace[i + 1])
  }

  lemma {:induction false} RunKeepsInv(trace: seq<Rows>, ops: seq<Op>, i: nat)
    requires IsRun(trace, ops) && Inv(trace[0]) && i < |trace|
    requires forall op :: op in ops ==> OrdinaryModule(op)
    ensures Inv(trace[i]) && forall faults :: Seeded(trace[i], faults) == trace[i]
  {
    if i > 0 {
      RunKeepsInv(trace, ops, i - 1);
      assert ops[i - 1] in ops;
      StepKeepsInv(trace[i - 1], ops[i - 1], trace[i]);
    }
    forall faults ensures Seeded(trace[i], faults) == trace[i] {
      FailingSeedingIsNoOp(trace[i], faults);
    }
  }

  /** Over any run an owner keeps its slot until its own Deprovision. */
  lemma {:induction false} RunKeepsOwner(trace: seq<Rows>, ops: seq<Op>, i: nat, j: nat, n: int, m: string)
    requires IsRun(trace, ops) && i <= j < |trace|
    requires n in trace[i] && trace[i][n] == Some(m)
    requires forall k :: i <= k < j ==> ops[k] != Deprovision(m)
    ensures n in trace[j] && trace[j][n] == Some(m)
  {
    if i < j {
      RunKeepsOwner(trace, ops, i, j - 1, n, m);
      StepKeepsOwner(trace[j - 1], ops[j - 1], trace[j], n, m);
    }
  }
}
