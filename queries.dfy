/** The read side of the handlers: the filtered lookups that the GET routes
    answer with and that the two POST routes run before they change anything.
    Each Sequelize `include: { model: Contract, where }` is an inner join of
    a job with its contract, written here as `LinkedAs`. */
module Queries {
  import opened Entities

  /** Some contract with id `contractId` has `who` on the side `role` asks for. */
  function LinkedAs(contracts: seq<Contract>, contractId: ContractId, who: ProfileId, role: Role): (r: bool)
    ensures r <==> exists c :: c in contracts && c.id == contractId && HasRole(c, who, role)
  {
    if |contracts| == 0 then false
    else
      var last := contracts[|contracts| - 1];
      var rest := contracts[..|contracts| - 1];
      assert contracts == rest + [last];
      LinkedAs(rest, contractId, who, role) || (last.id == contractId && HasRole(last, who, role))
  }

  /** GET /contracts/:id: the contract with that id, but only when the caller
      is its client; a contract where the caller is only the contractor is
      as absent as one that does not exist. */
  function ContractById(contracts: seq<Contract>, id: ContractId, caller: ProfileId): (r: Option<Contract>)
    ensures r.Some? ==> r.value in contracts && r.value.id == id && r.value.clientId == caller
    ensures r.None? <==> forall c :: c in contracts ==> c.id != id || c.clientId != caller
  {
    if |contracts| == 0 then None
    else
      var last := contracts[|contracts| - 1];
      var rest := contracts[..|contracts| - 1];
      assert contracts == rest + [last];
      match ContractById(rest, id, caller)
      case Some(c) => Some(c)
      case None => if last.id == id && last.clientId == caller then Some(last) else None
  }

  /** GET /contracts: every contract whose client is the caller, in table order. */
  function ContractsOf(contracts: seq<Contract>, caller: ProfileId): (r: seq<Contract>)
    ensures forall c :: c in r <==> c in contracts && c.clientId == caller
    ensures forall c :: multiset(r)[c] == if c.clientId == caller then multiset(contracts)[c] else 0
    ensures |r| <= |contracts|
  {
    if |contracts| == 0 then []
    else
      var last := contracts[|contracts| - 1];
      var rest := contracts[..|contracts| - 1];
      assert contracts == rest + [last];
      assert multiset(contracts) == multiset(rest) + multiset{last};
      ContractsOf(rest, caller) + (if last.clientId == caller then [last] else [])
  }

  /** The jobs, in table order, that are not paid and whose contract has
      `who` on the side `role` asks for. */
  function UnpaidJobsWhere(contracts: seq<Contract>, jobs: seq<Job>, who: ProfileId, role: Role): (r: seq<Job>)
    ensures forall j :: j in r <==> j in jobs && !j.paid && LinkedAs(contracts, j.contractId, who, role)
    ensures forall j :: multiset(r)[j] == if !j.paid && LinkedAs(contracts, j.contractId, who, role) then multiset(jobs)[j] else 0
    ensures |r| <= |jobs|
  {
    if |jobs| == 0 then []
    else
      var last := jobs[|jobs| - 1];
      var rest := jobs[..|jobs| - 1];
      assert jobs == rest + [last];
      assert multiset(jobs) == multiset(rest) + multiset{last};
      UnpaidJobsWhere(contracts, rest, who, role)
        + (if !last.paid && LinkedAs(contracts, last.contractId, who, role) then [last] else [])
  }

  /** GET /jobs/unpaid: the caller's outstanding jobs, whether the caller is
      the client or the contractor of the job's contract. */
  function UnpaidJobs(contracts: seq<Contract>, jobs: seq<Job>, caller: ProfileId): (r: seq<Job>)
    ensures forall j :: j in r <==>
      && j in jobs
      && !j.paid
      && exists c :: c in contracts && c.id == j.contractId && (c.clientId == caller || c.contractorId == caller)
    ensures forall j ::
              multiset(r)[j] ==
                if !j.paid && (exists c :: c in contracts && c.id == j.contractId && (c.clientId == caller || c.contractorId == caller))
                then multiset(jobs)[j] else 0
  {
    UnpaidJobsWhere(contracts, jobs, caller, EitherParty)
  }

  /** The row the payment handler looks up: the requested id, not paid,
      on a contract whose client is the caller. */
  predicate Payable(contracts: seq<Contract>, j: Job, caller: ProfileId, jobId: JobId) {
    j.id == jobId && !j.paid && LinkedAs(contracts, j.contractId, caller, Client)
  }

  /** The position of the job the payment handler finds, if any. */
  function FindPayable(contracts: seq<Contract>, jobs: seq<Job>, caller: ProfileId, jobId: JobId): (r: Option<nat>)
    ensures r.Some? ==> r.value < |jobs| && Payable(contracts, jobs[r.value], caller, jobId)
    ensures r.Some? ==> forall k :: 0 <= k < r.value ==> !Payable(contracts, jobs[k], caller, jobId)
    ensures r.None? <==> forall k :: 0 <= k < |jobs| ==> !Payable(contracts, jobs[k], caller, jobId)
  {
    if |jobs| == 0 then None
    else
      var rest := jobs[..|jobs| - 1];
      match FindPayable(contracts, rest, caller, jobId)
      case Some(k) => Some(k)
      case None => if Payable(contracts, jobs[|jobs| - 1], caller, jobId) then Some(|jobs| - 1) else None
  }

  /** The sum of the prices, as the deposit handler's `reduce` accumulates it. */
  function SumPrices(jobs: seq<Job>): int {
    if |jobs| == 0 then 0 else SumPrices(jobs[..|jobs| - 1]) + jobs[|jobs| - 1].price
  }

  /** The total of two listings side by side is the sum of their totals. */
  lemma {:induction false} SumPricesConcat(a: seq<Job>, b: seq<Job>)
    ensures SumPrices(a + b) == SumPrices(a) + SumPrices(b)
  {
    if |b| > 0 {
      var rest := b[..|b| - 1];
      assert (a + b)[..|a + b| - 1] == a + rest;
      SumPricesConcat(a, rest);
    } else {
      assert a + b == a;
    }
  }

  /** The total depends only on which rows are listed and how often, not on
      their order: any listing with the same rows as a query has its total. */
  lemma {:induction false} SumPricesPermutation(a: seq<Job>, b: seq<Job>)
    requires multiset(a) == multiset(b)
    ensures SumPrices(a) == SumPrices(b)
    decreases |a|
  {
    if |a| > 0 {
      var last := a[|a| - 1];
      var rest := a[..|a| - 1];
      assert a == rest + [last];
      assert multiset(a) == multiset(rest) + multiset{last};
      assert last in multiset(b);
      var k :| 0 <= k < |b| && b[k] == last;
      var others := b[..k] + b[k + 1..];
      assert b == b[..k] + [last] + b[k + 1..];
      assert multiset(b) == multiset(others) + multiset{last};
      assert multiset(rest) == multiset(a) - multiset{last};
      assert multiset(others) == multiset(b) - multiset{last};
      SumPricesPermutation(rest, others);
      SumPricesConcat(b[..k] + [last], b[k + 1..]);
      SumPricesConcat(b[..k], [last]);
      SumPricesConcat(b[..k], b[k + 1..]);
      assert SumPrices([last]) == last.price by {
        assert [last][..0] == [];
      }
    } else {
      assert |b| == |multiset(b)|;
    }
  }

  /** The jobs the deposit cap is computed over: unpaid, on a contract where
      the depositor is the contractor. */
  function Receivables(contracts: seq<Contract>, jobs: seq<Job>, depositor: ProfileId): (r: seq<Job>)
    ensures forall j :: j in r <==>
      && j in jobs
      && !j.paid
      && exists c :: c in contracts && c.id == j.contractId && c.contractorId == depositor
    ensures forall j ::
              multiset(r)[j] ==
                if !j.paid && (exists c :: c in contracts && c.id == j.contractId && c.contractorId == depositor)
                then multiset(jobs)[j] else 0
  {
    UnpaidJobsWhere(contracts, jobs, depositor, Contractor)
  }

  /** Every listing that holds each unpaid job owed to the depositor as often
      as the table does, and nothing else, totals what the cap query totals. */
  lemma ReceivablesTotalFixed(contracts: seq<Contract>, jobs: seq<Job>, depositor: ProfileId, listing: seq<Job>)
    requires forall j :: multiset(listing)[j] ==
               if !j.paid && LinkedAs(contracts, j.contractId, depositor, Contractor) then multiset(jobs)[j] else 0
    ensures SumPrices(listing) == SumPrices(Receivables(contracts, jobs, depositor))
  {
    var owed := UnpaidJobsWhere(contracts, jobs, depositor, Contractor);
    assert multiset(listing) == multiset(owed);
    SumPricesPermutation(listing, owed);
  }

  /** The deposit cap: with at least one receivable, the amount may be at most
      a quarter of their total; with none, any amount passes. */
  predicate DepositAllowed(contracts: seq<Contract>, jobs: seq<Job>, depositor: ProfileId, amount: nat) {
    var owed := Receivables(contracts, jobs, depositor);
    |owed| == 0 || 4 * amount <= SumPrices(owed)
  }

  /** A depositor with no unpaid job as contractor is not capped at all. */
  lemma NoReceivablesNoCap(contracts: seq<Contract>, jobs: seq<Job>, depositor: ProfileId, amount: nat)
    requires forall k :: 0 <= k < |jobs| && !jobs[k].paid ==> !LinkedAs(contracts, jobs[k].contractId, depositor, Contractor)
    ensures DepositAllowed(contracts, jobs, depositor, amount)
  {
    var owed := Receivables(contracts, jobs, depositor);
    if |owed| > 0 {
      HeadIsMember(owed);
      assert false;
    }
  }

  lemma HeadIsMember<T>(s: seq<T>)
    requires |s| > 0
    ensures s[0] in s
  {
  }

  /** A depositor with at least one unpaid job as contractor may deposit
      exactly the amounts whose fourfold is at most the total owed. */
  lemma CapIsQuarterOfReceivables(contracts: seq<Contract>, jobs: seq<Job>, depositor: ProfileId, k: nat, amount: nat)
    requires k < |jobs| && !jobs[k].paid && LinkedAs(contracts, jobs[k].contractId, depositor, Contractor)
    ensures DepositAllowed(contracts, jobs, depositor, amount)
        <==> 4 * amount <= SumPrices(Receivables(contracts, jobs, depositor))
  {
    assert jobs[k] in Receivables(contracts, jobs, depositor);
  }

  /** A contractor with one unpaid job priced 100 may deposit 25 but not 26. */
  lemma QuarterOfOneJob()
    ensures var contracts := [Contract(1, 10, 20)];
            var jobs := [Job(7, 1, 100, false, None)];
            DepositAllowed(contracts, jobs, 20, 25) && !DepositAllowed(contracts, jobs, 20, 26)
  {
    var contracts := [Contract(1, 10, 20)];
    var jobs := [Job(7, 1, 100, false, None)];
    assert LinkedAs(contracts, 1, 20, Contractor) by {
      assert contracts[0] in contracts;
    }
    assert Receivables(contracts, jobs, 20) == jobs;
  }

  /** The unpaid-jobs query sees jobs from both sides of a contract, while
      the contract lookup only answers the client. */
  lemma ContractorSeesJobsButNotContract(contracts: seq<Contract>, jobs: seq<Job>, caller: ProfileId, k: nat)
    requires k < |jobs| && !jobs[k].paid
    requires forall c :: c in contracts && c.id == jobs[k].contractId ==> c.contractorId == caller && c.clientId != caller
    requires exists c :: c in contracts && c.id == jobs[k].contractId
    ensures jobs[k] in UnpaidJobs(contracts, jobs, caller)
    ensures ContractById(contracts, jobs[k].contractId, caller).None?
  {
  }
}
