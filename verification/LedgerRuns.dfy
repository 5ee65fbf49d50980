/** Transactions committed one after the other from any database. */
module LedgerRuns {
  import opened LedgerModel
  import opened LedgerInvariant
  import opened LedgerProofs
  import opened LedgerTheorems

  ghost function RunFrom(db: Db, ops: seq<Op>): (after: Db)
    requires ValidOps(ops) && CallsHaveWallets(db)
    ensures CallsHaveWallets(after)
  {
    if ops == [] then db else Apply(RunFrom(db, ops[..|ops| - 1]), ops[|ops| - 1])
  }

  lemma {:induction false} RunFromKept(db: Db, ops: seq<Op>)
    requires ValidOps(ops) && CallsHaveWallets(db) && Inv(db)
    ensures Inv(RunFrom(db, ops))
  {
    if ops != [] {
      RunFromKept(db, ops[..|ops| - 1]);
      ApplyKept(RunFrom(db, ops[..|ops| - 1]), ops[|ops| - 1]);
    }
  }

  lemma {:induction false} RunFromEvolves(db: Db, ops: seq<Op>)
    requires ValidOps(ops) && CallsHaveWallets(db)
    ensures Evolves(db, RunFrom(db, ops))
  {
    if ops != [] {
      var init := ops[..|ops| - 1];
      RunFromEvolves(db, init);
      StepEvolves(RunFrom(db, init), ops[|ops| - 1]);
      EvolvesTrans(db, RunFrom(db, init), RunFrom(db, ops));
    }
  }
}
