/** The two POST routes, which change the tables: paying a job and
    depositing into a profile. `PayStep` and `DepositStep` say, as functions
    of the tables, what each route answers and leaves behind; the lemmas
    below them state what the routes promise; `Store` holds the tables and
    its methods carry the routes out step by step. The caller's id is what
    the profile middleware resolved, and the clock reading is passed in. */
module Handlers {
  import opened Entities
  import opened Queries
  import opened Ledger

  /** POST /jobs/:job_id/pay answers 404, 405 or the saved job. */
  datatype PayResult =
    | JobNotFound        // 404: no unpaid job with that id on a contract the caller is client of
    | InsufficientFunds  // 405: the price is above the caller's balance
    | Paid(job: Job)     // 200: the job as saved

  /** POST /balances/deposit/:userId answers 405, 500 or the depositor's profile. */
  datatype DepositResult =
    | CapExceeded                    // 405: above a quarter of the depositor's receivables
    | ReceiverMissing                // 500: under the exact-id lookup, no row has the receiver's id and `increment` throws
    | Deposited(depositor: Profile)  // 200: the depositor's row after the transfer

  datatype Tables = Tables(profiles: seq<Profile>, contracts: seq<Contract>, jobs: seq<Job>)

  /** What a route answers, and the tables it leaves behind. */
  datatype Outcome<R> = Outcome(result: R, after: Tables)

  /** Every table keeps its primary key. */
  ghost predicate WellKeyed(t: Tables) {
    UniqueProfileIds(t.profiles) && UniqueContractIds(t.contracts) && UniqueJobIds(t.jobs)
  }

  /** POST /jobs/:job_id/pay by `caller` at instant `now`: find the unpaid job
      with that id on a contract the caller is client of; refuse it if it
      costs more than the caller holds; otherwise settle it and debit the
      caller by its price. */
  function PayStep(t: Tables, caller: ProfileId, jobId: JobId, now: Timestamp): Outcome<PayResult>
    requires HasProfile(t.profiles, caller)
  {
    match FindPayable(t.contracts, t.jobs, caller, jobId)
    case None => Outcome(JobNotFound, t)
    case Some(i) =>
      if t.jobs[i].price > Balance(t.profiles, caller) then Outcome(InsufficientFunds, t)
      else
        var job := Settle(t.jobs[i], now);
        Outcome(Paid(job), t.(profiles := Adjust(t.profiles, caller, -t.jobs[i].price), jobs := t.jobs[i := job]))
  }

  /** POST /balances/deposit/:userId by `caller` of `amount`: refuse an amount
      above the cap; otherwise credit the receiver, found by exact id, and
      debit the caller. The exact-id lookup corrects the unfiltered one the
      handler writes (see `ReceiverCandidatesAsWritten`), and only it can come
      back empty. */
  function DepositStep(t: Tables, caller: ProfileId, userId: ProfileId, amount: nat): Outcome<DepositResult>
    requires HasProfile(t.profiles, caller)
  {
    if !DepositAllowed(t.contracts, t.jobs, caller, amount) then Outcome(CapExceeded, t)
    else if ProfileIndex(t.profiles, userId).None? then Outcome(ReceiverMissing, t)
    else
      var profiles := Adjust(Adjust(t.profiles, userId, amount), caller, -(amount as int));
      Outcome(Deposited(profiles[ProfileIndex(t.profiles, caller).value]), t.(profiles := profiles))
  }

  /** The payment answers 404, and changes nothing, exactly when no job has
      the id, or the job is already paid, or its contract's client is not the
      caller. */
  lemma PayNotFound(t: Tables, caller: ProfileId, jobId: JobId, now: Timestamp)
    requires HasProfile(t.profiles, caller)
    ensures PayStep(t, caller, jobId, now).result.JobNotFound?
        <==> forall k :: 0 <= k < |t.jobs| && t.jobs[k].id == jobId ==>
               t.jobs[k].paid || !exists c :: c in t.contracts && c.id == t.jobs[k].contractId && c.clientId == caller
    ensures PayStep(t, caller, jobId, now).result.JobNotFound? ==> PayStep(t, caller, jobId, now).after == t
  {
  }

  /** The payment answers 405 exactly when the job is found and its price is
      above the caller's balance; every balance and every job stays as it was. */
  lemma PayInsufficient(t: Tables, caller: ProfileId, jobId: JobId, now: Timestamp)
    requires WellKeyed(t) && HasProfile(t.profiles, caller)
    ensures PayStep(t, caller, jobId, now).result.InsufficientFunds? <==>
              exists k :: 0 <= k < |t.jobs| && Payable(t.contracts, t.jobs[k], caller, jobId) && t.jobs[k].price > Balance(t.profiles, caller)
    ensures PayStep(t, caller, jobId, now).result.InsufficientFunds? ==> PayStep(t, caller, jobId, now).after == t
  {
    var found := FindPayable(t.contracts, t.jobs, caller, jobId);
    if k :| 0 <= k < |t.jobs| && Payable(t.contracts, t.jobs[k], caller, jobId) && t.jobs[k].price > Balance(t.profiles, caller) {
      assert found.Some?;
      var i := found.value;
      assert t.jobs[i].id == t.jobs[k].id;
      assert i == k;
    }
  }

  /** A successful payment settles the one job it found, an unpaid job with
      the requested id on a contract the caller is client of and priced
      within the caller's balance, and touches no other job or contract. */
  lemma PaySettlesOneJob(t: Tables, caller: ProfileId, jobId: JobId, now: Timestamp)
    requires HasProfile(t.profiles, caller)
    requires PayStep(t, caller, jobId, now).result.Paid?
    ensures var o := PayStep(t, caller, jobId, now);
            exists i :: 0 <= i < |t.jobs| && Payable(t.contracts, t.jobs[i], caller, jobId)
              && t.jobs[i].price <= Balance(t.profiles, caller)
              && o.result.job == Settle(t.jobs[i], now)
              && o.after.jobs == t.jobs[i := o.result.job]
    ensures PayStep(t, caller, jobId, now).after.contracts == t.contracts
  {
    var i := FindPayable(t.contracts, t.jobs, caller, jobId).value;
    assert Payable(t.contracts, t.jobs[i], caller, jobId);
  }

  /** A successful payment debits the caller by exactly the job's price and
      credits nobody, the contractor included: every other profile keeps its
      balance, and the money in the system drops by the price. */
  lemma PayDebitsOnlyPayer(t: Tables, caller: ProfileId, jobId: JobId, now: Timestamp)
    requires WellKeyed(t) && HasProfile(t.profiles, caller)
    requires PayStep(t, caller, jobId, now).result.Paid?
    ensures var o := PayStep(t, caller, jobId, now);
            && o.after.profiles == Adjust(t.profiles, caller, -o.result.job.price)
            && HasProfile(o.after.profiles, caller)
            && Balance(o.after.profiles, caller) == Balance(t.profiles, caller) - o.result.job.price
            && SumBalances(o.after.profiles) == SumBalances(t.profiles) - o.result.job.price
  {
    var o := PayStep(t, caller, jobId, now);
    var price := o.result.job.price;
    assert o.after.profiles == Adjust(t.profiles, caller, -price);
    PaymentRemovesPrice(t.profiles, caller, price);
  }

  /** Paying keeps every primary key and only ever turns paid flags on. */
  lemma PayKeepsInvariants(t: Tables, caller: ProfileId, jobId: JobId, now: Timestamp)
    requires WellKeyed(t) && HasProfile(t.profiles, caller)
    ensures WellKeyed(PayStep(t, caller, jobId, now).after)
    ensures PaidOnlyGrows(t.jobs, PayStep(t, caller, jobId, now).after.jobs)
  {
    match FindPayable(t.contracts, t.jobs, caller, jobId)
    case None =>
    case Some(i) =>
      SettleKeepsShape(t.jobs, i, now);
      AdjustKeepsIds(t.profiles, caller, -t.jobs[i].price, caller);
  }

  /** A payment the caller can cover leaves no balance negative. */
  lemma PayKeepsBalancesNonNegative(t: Tables, caller: ProfileId, jobId: JobId, now: Timestamp)
    requires WellKeyed(t) && HasProfile(t.profiles, caller) && NonNegative(t.profiles)
    ensures NonNegative(PayStep(t, caller, jobId, now).after.profiles)
  {
    match FindPayable(t.contracts, t.jobs, caller, jobId)
    case None =>
    case Some(i) =>
      if t.jobs[i].price <= Balance(t.profiles, caller) {
        PaymentKeepsBalancesNonNegative(t.profiles, caller, t.jobs[i].price);
      }
  }

  /** Settling an unpaid job keeps the jobs table's primary key and only
      turns that job's flag from unpaid to paid. */
  lemma SettleKeepsShape(jobs: seq<Job>, i: nat, now: Timestamp)
    requires i < |jobs| && !jobs[i].paid
    ensures UniqueJobIds(jobs) ==> UniqueJobIds(jobs[i := Settle(jobs[i], now)])
    ensures PaidOnlyGrows(jobs, jobs[i := Settle(jobs[i], now)])
  {
  }

  /** Once a job has been paid, no caller can find it to pay it again. */
  lemma SettledNotPayable(contracts: seq<Contract>, jobs: seq<Job>, i: nat, now: Timestamp, caller: ProfileId)
    requires UniqueJobIds(jobs) && i < |jobs|
    ensures FindPayable(contracts, jobs[i := Settle(jobs[i], now)], caller, jobs[i].id).None?
  {
    var after := jobs[i := Settle(jobs[i], now)];
    forall k | 0 <= k < |after|
      ensures !Payable(contracts, after[k], caller, jobs[i].id)
    {
      if k != i {
        assert after[k].id == jobs[k].id;
        assert jobs[k].id != jobs[i].id;
      }
    }
  }

  /** Paying the same job a second time, by anyone and at any instant,
      answers 404 and changes nothing. */
  lemma SecondPaymentNotFound(t: Tables, caller: ProfileId, again: ProfileId, jobId: JobId, now: Timestamp, later: Timestamp)
    requires WellKeyed(t) && HasProfile(t.profiles, caller) && HasProfile(t.profiles, again)
    requires PayStep(t, caller, jobId, now).result.Paid?
    ensures var t' := PayStep(t, caller, jobId, now).after;
            && HasProfile(t'.profiles, again)
            && PayStep(t', again, jobId, later) == Outcome(JobNotFound, t')
  {
    var i := FindPayable(t.contracts, t.jobs, caller, jobId).value;
    SettledNotPayable(t.contracts, t.jobs, i, now, again);
    AdjustKeepsIds(t.profiles, caller, -t.jobs[i].price, again);
  }

  /** Once a job has been paid, it leaves every unpaid list: that of either
      party, and the receivables that cap the contractor's deposits. */
  lemma PaymentClearsUnpaid(contracts: seq<Contract>, jobs: seq<Job>, i: nat, now: Timestamp, who: ProfileId, role: Role)
    requires UniqueJobIds(jobs) && i < |jobs|
    ensures forall j :: j in UnpaidJobsWhere(contracts, jobs[i := Settle(jobs[i], now)], who, role) ==> j.id != jobs[i].id
  {
    var after := jobs[i := Settle(jobs[i], now)];
    forall j | j in UnpaidJobsWhere(contracts, after, who, role)
      ensures j.id != jobs[i].id
    {
      var k :| 0 <= k < |after| && after[k] == j;
      if k != i {
        assert jobs[k].id != jobs[i].id;
      }
    }
  }

  /** The deposit answers 405 exactly when the caller has an unpaid job as
      contractor and four times the amount is above their total; with the
      exact-id receiver lookup, 500 exactly when the cap passes and no profile
      has the receiver's id. Neither changes anything. */
  lemma DepositRefusals(t: Tables, caller: ProfileId, userId: ProfileId, amount: nat)
    requires HasProfile(t.profiles, caller)
    ensures var o := DepositStep(t, caller, userId, amount);
            o.result.CapExceeded? <==>
              var owed := Receivables(t.contracts, t.jobs, caller);
              |owed| > 0 && 4 * amount > SumPrices(owed)
    ensures var o := DepositStep(t, caller, userId, amount);
            o.result.ReceiverMissing? <==> DepositAllowed(t.contracts, t.jobs, caller, amount) && !HasProfile(t.profiles, userId)
    ensures var o := DepositStep(t, caller, userId, amount);
            !o.result.Deposited? ==> o.after == t
  {
  }

  /** A successful deposit found its receiver, changes no contract, no job
      and no profile other than the receiver and the caller, keeps the money
      in the system constant, and answers with the caller's row. */
  lemma DepositConservesMoney(t: Tables, caller: ProfileId, userId: ProfileId, amount: nat)
    requires WellKeyed(t) && HasProfile(t.profiles, caller)
    requires DepositStep(t, caller, userId, amount).result.Deposited?
    ensures var o := DepositStep(t, caller, userId, amount);
            && HasProfile(t.profiles, userId)
            && o.after.contracts == t.contracts && o.after.jobs == t.jobs
            && |o.after.profiles| == |t.profiles|
            && (forall k :: 0 <= k < |t.profiles| && t.profiles[k].id != caller && t.profiles[k].id != userId ==>
                  o.after.profiles[k] == t.profiles[k])
            && SumBalances(o.after.profiles) == SumBalances(t.profiles)
            && o.result.depositor.id == caller
  {
    var after := DepositStep(t, caller, userId, amount).after.profiles;
    assert after == Adjust(Adjust(t.profiles, userId, amount), caller, -(amount as int));
    DepositConserves(t.profiles, userId, caller, amount);
  }

  /** Between two distinct profiles a successful deposit raises the
      receiver's balance by the amount and lowers the caller's by the same,
      so their two balances add up as before; the answer carries the caller's
      new balance. */
  lemma DepositMovesBetweenTwo(t: Tables, caller: ProfileId, userId: ProfileId, amount: nat)
    requires WellKeyed(t) && HasProfile(t.profiles, caller)
    requires DepositStep(t, caller, userId, amount).result.Deposited?
    requires userId != caller
    ensures var o := DepositStep(t, caller, userId, amount);
            && HasProfile(t.profiles, userId)
            && HasProfile(o.after.profiles, userId) && HasProfile(o.after.profiles, caller)
            && Balance(o.after.profiles, userId) == Balance(t.profiles, userId) + amount
            && Balance(o.after.profiles, caller) == Balance(t.profiles, caller) - amount
            && o.result.depositor.balance == Balance(t.profiles, caller) - amount
  {
    var after := DepositStep(t, caller, userId, amount).after.profiles;
    assert after == Adjust(Adjust(t.profiles, userId, amount), caller, -(amount as int));
    DepositMovesAmount(t.profiles, userId, caller, amount);
    AdjustKeepsIds(t.profiles, userId, amount, caller);
    BalanceAt(after, caller, ProfileIndex(t.profiles, caller).value);
  }

  /** Depositing keeps every primary key and touches no job. */
  lemma DepositKeepsInvariants(t: Tables, caller: ProfileId, userId: ProfileId, amount: nat)
    requires WellKeyed(t) && HasProfile(t.profiles, caller)
    ensures WellKeyed(DepositStep(t, caller, userId, amount).after)
    ensures DepositStep(t, caller, userId, amount).after.jobs == t.jobs
  {
    AdjustKeepsIds(t.profiles, userId, amount, caller);
    AdjustKeepsIds(Adjust(t.profiles, userId, amount), caller, -(amount as int), caller);
  }

  /** The `reduce` of the deposit handler: the total price of `jobs`. */
  method TotalPrice(jobs: seq<Job>) returns (total: int)
    ensures total == SumPrices(jobs)
  {
    total := 0;
    var i := 0;
    while i < |jobs|
      invariant 0 <= i <= |jobs|
      invariant total == SumPrices(jobs[..i])
    {
      assert jobs[..i + 1][..i] == jobs[..i];
      total := total + jobs[i].price;
      i := i + 1;
    }
    assert jobs[..|jobs|] == jobs;
  }

  class Store {
    var profiles: seq<Profile>
    var contracts: seq<Contract>
    var jobs: seq<Job>

    ghost function Snapshot(): Tables
      reads this
    {
      Tables(profiles, contracts, jobs)
    }

    ghost predicate Valid()
      reads this
    {
      WellKeyed(Snapshot())
    }

    constructor (profiles0: seq<Profile>, contracts0: seq<Contract>, jobs0: seq<Job>)
      requires WellKeyed(Tables(profiles0, contracts0, jobs0))
      ensures Valid() && Snapshot() == Tables(profiles0, contracts0, jobs0)
    {
      profiles, contracts, jobs := profiles0, contracts0, jobs0;
    }

    /** POST /jobs/:job_id/pay, by `caller`, at instant `now`. */
    method PayJob(caller: ProfileId, jobId: JobId, now: Timestamp) returns (r: PayResult)
      requires Valid() && HasProfile(profiles, caller)
      modifies this
      ensures Outcome(r, Snapshot()) == PayStep(old(Snapshot()), caller, jobId, now)
      ensures Valid() && PaidOnlyGrows(old(jobs), jobs)
    {
      PayKeepsInvariants(Snapshot(), caller, jobId, now);
      var found := FindPayable(contracts, jobs, caller, jobId);
      if found.None? {
        return JobNotFound;
      }
      var i := found.value;
      var job := jobs[i];
      if job.price > Balance(profiles, caller) {
        return InsufficientFunds;
      }
      profiles := Adjust(profiles, caller, -job.price);
      job := Settle(job, now);
      jobs := jobs[i := job];
      r := Paid(job);
    }

    /** POST /balances/deposit/:userId, by `caller`, of `amount`. The receiver
        is looked up by exact id (ReceiverCandidatesAsWritten is the lookup as
        the handler writes it). */
    method Deposit(caller: ProfileId, userId: ProfileId, amount: nat) returns (r: DepositResult)
      requires Valid() && HasProfile(profiles, caller)
      modifies this
      ensures Outcome(r, Snapshot()) == DepositStep(old(Snapshot()), caller, userId, amount)
      ensures Valid()
    {
      DepositKeepsInvariants(Snapshot(), caller, userId, amount);
      var owed := Receivables(contracts, jobs, caller);
      if |owed| > 0 {
        var total := TotalPrice(owed);
        if 4 * amount > total {
          return CapExceeded;
        }
      }
      var receiver := ProfileIndex(profiles, userId);
      if receiver.None? {
        return ReceiverMissing;
      }
      var d := ProfileIndex(profiles, caller).value;
      profiles := Adjust(Adjust(profiles, userId, amount), caller, -(amount as int));
      r := Deposited(profiles[d]);
    }
  }

  /** Paying the same job twice on one store: the second attempt finds
      nothing, whoever makes it and whenever. */
  method PayTwice(s: Store, caller: ProfileId, again: ProfileId, jobId: JobId, now: Timestamp, later: Timestamp)
    returns (first: PayResult, second: PayResult)
    requires s.Valid() && HasProfile(s.profiles, caller) && HasProfile(s.profiles, again)
    modifies s
    ensures first.Paid? ==> second.JobNotFound? && s.Snapshot() == PayStep(old(s.Snapshot()), caller, jobId, now).after
  {
    ghost var t := s.Snapshot();
    first := s.PayJob(caller, jobId, now);
    if first.Paid? {
      SecondPaymentNotFound(t, caller, again, jobId, now, later);
    } else {
      assert s.Snapshot() == t;
    }
    second := s.PayJob(again, jobId, later);
  }
}
