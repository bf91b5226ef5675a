/** The three tables of the marketplace: profiles with balances, contracts
    binding a client to a contractor, and the jobs done under a contract. */
module Entities {

  type ProfileId = int
  type ContractId = int
  type JobId = int
  /** An opaque instant; the handlers receive the clock reading as a parameter. */
  type Timestamp = int

  datatype Option<T> = None | Some(value: T)

  datatype Profile = Profile(id: ProfileId, balance: int)

  datatype Contract = Contract(id: ContractId, clientId: ProfileId, contractorId: ProfileId)

  /** `paid == false` stands for both a false and a NULL column: every query
      filters with "paid is not true". */
  datatype Job = Job(id: JobId, contractId: ContractId, price: int, paid: bool, paymentDate: Option<Timestamp>)

  /** The side of a contract on which a query requires the caller to stand. */
  datatype Role = Client | Contractor | EitherParty

  predicate HasRole(c: Contract, who: ProfileId, role: Role) {
    match role
    case Client => c.clientId == who
    case Contractor => c.contractorId == who
    case EitherParty => c.clientId == who || c.contractorId == who
  }

  /** Primary keys: no two rows of a table share an id. */
  ghost predicate UniqueProfileIds(ps: seq<Profile>) {
    forall i, j :: 0 <= i < j < |ps| ==> ps[i].id != ps[j].id
  }

  ghost predicate UniqueContractIds(cs: seq<Contract>) {
    forall i, j :: 0 <= i < j < |cs| ==> cs[i].id != cs[j].id
  }

  ghost predicate UniqueJobIds(js: seq<Job>) {
    forall i, j :: 0 <= i < j < |js| ==> js[i].id != js[j].id
  }

  /** The job as the payment handler saves it: stamped with the payment
      instant and flagged paid; id, contract and price are untouched. */
  function Settle(j: Job, now: Timestamp): (r: Job)
    ensures r.paid && r.paymentDate == Some(now)
    ensures r.id == j.id && r.contractId == j.contractId && r.price == j.price
  {
    j.(paid := true, paymentDate := Some(now))
  }

  /** Between two versions of the jobs table, no paid flag went back to unpaid
      and every id, contract and price stayed put. */
  ghost predicate PaidOnlyGrows(before: seq<Job>, after: seq<Job>) {
    && |after| == |before|
    && forall k :: 0 <= k < |before| ==>
         && after[k].id == before[k].id
         && after[k].contractId == before[k].contractId
         && after[k].price == before[k].price
         && (before[k].paid ==> after[k] == before[k])
  }
}
