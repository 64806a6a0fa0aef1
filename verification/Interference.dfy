/** What other handles' transactions may do between an archive's steps. */
module Interference {
  import opened Wrappers
  import opened Event
  import opened Rows
  import opened Filters
  import opened Database
  import opened Retention
  import opened World
  import opened Growth
  import opened Rising
  import opened ArchiveLoop

  function ExecTo(t: Tables, ops: seq<Op>, k: nat): Tables
    requires k <= |ops|
  {
    if k == 0 then t else Exec(ExecTo(t, ops, k - 1), ops[k - 1])
  }

  /** No transaction takes the chain of receipts back. */
  lemma ChainNeverFalls(t: Tables, op: Op)
    ensures ExportedThrough(t) <= ExportedThrough(Exec(t, op))
  {
    match op {
      case Land(id) => if Confirm(t, id).Ok? { ConfirmNeverLowers(t, id); }
      case Take(from, page, f) => if from <= I64_MAX { ReceiptKeepsChain(t, from, page, f); }
      case _ => ReceiptsUntouched(t, op);
    }
  }

  lemma ReceiptsAreKept(t: Tables, op: Op)
    ensures ReceiptsKept(t, Exec(t, op))
  {
    if !op.Take? && !op.Land? { ReceiptsUntouched(t, op); }
  }

  lemma OpFollows(t: Tables, op: Op)
    requires Ordinary(t)
    ensures Follows(t, Exec(t, op))
  {
    OpGrows(t, op);
    ChainNeverFalls(t, op);
    ReceiptsAreKept(t, op);
  }

  lemma FollowsOn(t: Tables, u: Tables, v: Tables)
    requires Follows(t, u) && Follows(u, v)
    ensures Follows(t, v)
  {}

  /** Any transactions at all, other archives' included, are interference an archive
      withstands. */
  lemma {:induction false} TransactionsFollow(t: Tables, ops: seq<Op>, k: nat)
    requires Ordinary(t) && k <= |ops|
    ensures Follows(t, ExecTo(t, ops, k))
  {
    if k > 0 {
      TransactionsFollow(t, ops, k - 1);
      OpFollows(ExecTo(t, ops, k - 1), ops[k - 1]);
      FollowsOn(t, ExecTo(t, ops, k - 1), ExecTo(t, ops, k));
    }
  }
}
