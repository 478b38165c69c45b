/**
 * The store as the routes see it: an object whose two tables are updated in
 * place. Transfer is realizarTransacao with its retry loop; Attempt is the
 * body of one `sequelize.transaction`; Credit is the balance update of the
 * `POST /transacao` route.
 */
module Banking {
  import opened Common
  import opened Ledger
  import opened Transfer

  class Bank {
    /** The accounts table. */
    var accounts: seq<Account>
    /** The transactions table, in insertion order. */
    var log: seq<Record>

    function State(): Store
      reads this
    {
      Store(accounts, log)
    }

    constructor (accounts: seq<Account>, log: seq<Record>)
      ensures State() == Store(accounts, log)
    {
      this.accounts := accounts;
      this.log := log;
    }

    /**
     * One attempt. The writes go to the transaction's own copy of the tables
     * and become visible only when every store call has succeeded; a store
     * error at `fault` rolls the attempt back.
     */
    method Attempt(req: Request, fault: Option<Fault>) returns (r: AttemptResult)
      modifies this
      ensures Attempted(State(), r) == AttemptSpec(old(State()), req, fault)
    {
      var rows := accounts;
      if Strikes(fault, Lookup) {
        return Aborted(StoreError(fault.value.code));
      }
      var oi := FindByOwner(rows, req.origin);
      var di := FindByOwner(rows, req.destination);
      if oi.None? || di.None? {
        return Aborted(AccountNotFound);
      }
      var origin, dest := rows[oi.value], rows[di.value];
      var saldoOrigem := origin.balance;
      if req.tipo == Gasto && saldoOrigem < req.amount {
        return Aborted(InsufficientFunds);
      }
      var contas := SortById(origin, dest);
      var work := SetBalance(rows, contas.0.id, saldoOrigem - req.amount);
      if Strikes(fault, UpdateFirst) {
        return Aborted(StoreError(fault.value.code));
      }
      work := SetBalance(work, contas.1.id, dest.balance + req.amount);
      if Strikes(fault, UpdateSecond) {
        return Aborted(StoreError(fault.value.code));
      }
      var journal := log + [RecordOf(req, origin)];
      if Strikes(fault, CreateRecord) || Strikes(fault, Commit) {
        return Aborted(StoreError(fault.value.code));
      }
      accounts, log := work, journal;
      r := Committed;
    }

    /**
     * realizarTransacao: attempt, and on a contention error pause and attempt
     * again, at most MaxRetries times. `faults[k]` is the store error that
     * attempt `k` meets; `waits` counts the pauses of RetryDelayMs.
     */
    method Transfer(req: Request, faults: seq<Option<Fault>>) returns (outcome: Outcome, attempts: nat, waits: nat)
      modifies this
      ensures Run(State(), outcome, attempts, waits) == TransferSpec(old(State()), req, faults)
    {
      var retries := 0;
      attempts, waits := 0, 0;
      while retries < MaxRetries
        invariant retries < MaxRetries
        invariant State() == old(State())
        invariant attempts == retries && waits == retries
        invariant RunFrom(State(), req, faults, retries) == TransferSpec(State(), req, faults)
        decreases MaxRetries - retries
      {
        var r := Attempt(req, FaultAt(faults, retries));
        attempts := attempts + 1;
        if r.Committed? {
          return Success, attempts, waits;
        }
        if IsContention(r.reason) {
          retries := retries + 1;
          if retries < MaxRetries {
            waits := waits + 1;
          } else {
            return RetriesExhausted, attempts, waits;
          }
        } else {
          return Failed(r.reason), attempts, waits;
        }
      }
      assert false;
    }

    /**
     * The balance update of `POST /transacao`: find the account by primary
     * key and add the amount to its balance; `found` is false for the 404
     * reply, and then nothing changes.
     */
    method Credit(contaId: AccountId, v: int) returns (found: bool)
      modifies this
      ensures found == FindById(old(accounts), contaId).Some?
      ensures found ==> accounts == SetBalance(old(accounts), contaId,
                                              old(accounts)[FindById(old(accounts), contaId).value].balance + v)
      ensures !found ==> accounts == old(accounts)
      ensures log == old(log)
    {
      var k := FindById(accounts, contaId);
      if k.None? {
        return false;
      }
      var conta := accounts[k.value];
      accounts := SetBalance(accounts, conta.id, conta.balance + v);
      found := true;
    }
  }

  /**
   * What a credit does to the bank (ids unique): the credited account gains
   * exactly the amount, every other account is untouched, and the total grows
   * by the amount.
   */
  lemma CreditEffect(rows: seq<Account>, contaId: AccountId, v: int)
    requires UniqueIds(rows)
    requires FindById(rows, contaId).Some?
    ensures var k := FindById(rows, contaId).value;
      var after := SetBalance(rows, contaId, rows[k].balance + v);
      && after[k].balance == rows[k].balance + v
      && (forall i :: 0 <= i < |rows| && i != k ==> after[i] == rows[i])
      && Total(after) == Total(rows) + v
  {
    var k := FindById(rows, contaId).value;
    TotalSetBalance(rows, k, rows[k].balance + v);
  }
}
