/**
 * The money-transfer routine realizarTransacao: one attempt inside a store
 * transaction, and the bounded retry loop around it, stated as functions of
 * the store before the call. The Bank class runs the same steps imperatively
 * and is proved equal to these functions.
 */
module Transfer {
  import opened Common
  import opened Ledger

  /** MAX_RETRIES: the number of attempts the routine makes at most. */
  const MaxRetries: nat := 5
  /** RETRY_DELAY: the pause, in milliseconds, before each new attempt. */
  const RetryDelayMs: nat := 1000

  const Gasto := "gasto"
  const Deposito := "deposito"

  /** The two driver error codes that are treated as contention. */
  const ErLockWaitTimeout := "ER_LOCK_WAIT_TIMEOUT"
  const ErLockDeadlock := "ER_LOCK_DEADLOCK"

  /** The five arguments of realizarTransacao; `amount` is in cents. */
  datatype Request = Request(origin: UserId, destination: UserId, amount: int,
                             tipo: string, payment: string)

  /** The store calls of one attempt, in program order. */
  datatype Step = Lookup | UpdateFirst | UpdateSecond | CreateRecord | Commit

  /** A store error raised by the call at `step`, with the driver's error code. */
  datatype Fault = Fault(step: Step, code: string)

  /** Why an attempt was rolled back. */
  datatype Failure = AccountNotFound | InsufficientFunds | StoreError(code: string)

  datatype AttemptResult = Committed | Aborted(reason: Failure)

  /** The store after one attempt, and how the attempt ended. */
  datatype Attempted = Attempted(after: Store, result: AttemptResult)

  /** What the caller of realizarTransacao sees: a return, the propagated error, or the "max attempts" error. */
  datatype Outcome = Success | Failed(cause: Failure) | RetriesExhausted

  /** The store after the whole call, its outcome, how many attempts ran and how many pauses were taken. */
  datatype Run = Run(after: Store, outcome: Outcome, attempts: nat, waits: nat)

  /** The condition of the catch block under which the attempt is retried. */
  predicate IsContention(f: Failure): (b: bool)
    ensures b ==> f != AccountNotFound && f != InsufficientFunds
  {
    f.StoreError? && (f.code == ErLockWaitTimeout || f.code == ErLockDeadlock)
  }

  predicate Strikes(fault: Option<Fault>, step: Step) {
    fault.Some? && fault.value.step == step
  }

  /** The fault the store raises during attempt `k` (zero-based), if any. */
  function FaultAt(faults: seq<Option<Fault>>, k: nat): Option<Fault> {
    if k < |faults| then faults[k] else None
  }

  /**
   * `[contaOrigem, contaDestino].sort((a, b) => a.ID_Conta - b.ID_Conta)`:
   * ascending by id, and stable, so equal ids keep their order.
   */
  function SortById(a: Account, b: Account): (r: (Account, Account))
    ensures r.0.id <= r.1.id
    ensures r == (a, b) || r == (b, a)
    ensures a.id <= b.id ==> r == (a, b)
  {
    if b.id < a.id then (b, a) else (a, b)
  }

  /**
   * The two UPDATE statements of an attempt, as written: the account that
   * sorts first is set to the origin's balance minus the amount, the one that
   * sorts second to the destination's balance plus the amount, whichever
   * roles those accounts play.
   */
  function Writes(rows: seq<Account>, origin: Account, dest: Account, v: int): (r: seq<Account>)
    ensures |r| == |rows|
  {
    var sorted := SortById(origin, dest);
    SetBalance(SetBalance(rows, sorted.0.id, origin.balance - v), sorted.1.id, dest.balance + v)
  }

  /** The record an attempt inserts: attributed to the origin account. */
  function RecordOf(req: Request, origin: Account): (r: Record)
    ensures r.account == origin.id && r.tipo == req.tipo && r.valor == req.amount
    ensures r.origin == req.origin && r.destination == req.destination
  {
    Record(origin.id, req.tipo, req.amount, req.payment, req.origin, req.destination)
  }

  /**
   * One attempt inside `sequelize.transaction`: either every write is kept
   * (Committed) or the store is left exactly as it was (Aborted).
   */
  function AttemptSpec(s: Store, req: Request, fault: Option<Fault>): (a: Attempted)
    ensures a.result.Aborted? ==> a.after == s
    ensures a.result.Committed? ==> fault.None? && |a.after.accounts| == |s.accounts|
  {
    if Strikes(fault, Lookup) then Attempted(s, Aborted(StoreError(fault.value.code)))
    else
      var oi := OriginRow(s, req);
      var di := DestinationRow(s, req);
      if oi.None? || di.None? then Attempted(s, Aborted(AccountNotFound))
      else
        var origin := s.accounts[oi.value];
        var dest := s.accounts[di.value];
        if req.tipo == Gasto && origin.balance < req.amount then Attempted(s, Aborted(InsufficientFunds))
        else if fault.Some? then Attempted(s, Aborted(StoreError(fault.value.code)))
        else Attempted(Store(Writes(s.accounts, origin, dest, req.amount), s.log + [RecordOf(req, origin)]),
                       Committed)
  }

  /**
   * The retry loop from the moment `retries` attempts have hit contention.
   * Every aborted attempt leaves the store unchanged, so each new attempt
   * starts from the same store `s`.
   */
  function RunFrom(s: Store, req: Request, faults: seq<Option<Fault>>, retries: nat): (r: Run)
    requires retries < MaxRetries
    ensures retries < r.attempts <= MaxRetries
    ensures r.waits == r.attempts - 1
    ensures r.outcome != Success ==> r.after == s
    ensures r.outcome.Failed? ==> !IsContention(r.outcome.cause)
    ensures r.outcome == RetriesExhausted ==> r.attempts == MaxRetries
    decreases MaxRetries - retries
  {
    var a := AttemptSpec(s, req, FaultAt(faults, retries));
    match a.result
    case Committed => Run(a.after, Success, retries + 1, retries)
    case Aborted(f) =>
      if !IsContention(f) then Run(s, Failed(f), retries + 1, retries)
      else if retries + 1 < MaxRetries then RunFrom(s, req, faults, retries + 1)
      else Run(s, RetriesExhausted, retries + 1, retries)
  }

  /** A whole call of realizarTransacao, with `faults[k]` the store error met by attempt `k`. */
  function TransferSpec(s: Store, req: Request, faults: seq<Option<Fault>>): (r: Run)
    ensures 1 <= r.attempts <= MaxRetries && r.waits == r.attempts - 1
    ensures r.outcome != Success ==> r.after == s
    ensures r.outcome.Failed? ==> !IsContention(r.outcome.cause)
  {
    RunFrom(s, req, faults, 0)
  }

  // ---------------------------------------------------------------------------
  // One attempt

  /** The origin account an attempt reads, when its owner has one. */
  function OriginRow(s: Store, req: Request): (r: Option<nat>)
    ensures r.Some? ==> r.value < |s.accounts| && s.accounts[r.value].owner == req.origin
  {
    FindByOwner(s.accounts, req.origin)
  }

  /** The destination account an attempt reads, when its owner has one. */
  function DestinationRow(s: Store, req: Request): (r: Option<nat>)
    ensures r.Some? ==> r.value < |s.accounts| && s.accounts[r.value].owner == req.destination
  {
    FindByOwner(s.accounts, req.destination)
  }

  /** The balance check of the attempt fails: a "gasto" larger than the origin's balance. */
  predicate Overdraws(s: Store, req: Request)
    requires OriginRow(s, req).Some?
  {
    req.tipo == Gasto && s.accounts[OriginRow(s, req).value].balance < req.amount
  }

  /** An attempt commits exactly when no store call fails, both accounts exist and the balance check passes. */
  lemma AttemptCommitsIff(s: Store, req: Request, fault: Option<Fault>)
    ensures AttemptSpec(s, req, fault).result == Committed <==>
      fault.None? && OriginRow(s, req).Some? && DestinationRow(s, req).Some? && !Overdraws(s, req)
  {
  }

  /**
   * A missing origin or destination account fails the attempt with
   * AccountNotFound, unless the lookup itself raised a store error.
   */
  lemma AttemptNotFoundIff(s: Store, req: Request, fault: Option<Fault>)
    ensures AttemptSpec(s, req, fault).result == Aborted(AccountNotFound) <==>
      !Strikes(fault, Lookup) && (OriginRow(s, req).None? || DestinationRow(s, req).None?)
  {
  }

  /**
   * InsufficientFunds is raised exactly for a "gasto" whose origin balance is
   * below the amount; any other type, "deposito" included, skips the check.
   */
  lemma AttemptInsufficientIff(s: Store, req: Request, fault: Option<Fault>)
    ensures AttemptSpec(s, req, fault).result == Aborted(InsufficientFunds) <==>
      !Strikes(fault, Lookup) && OriginRow(s, req).Some? && DestinationRow(s, req).Some? && Overdraws(s, req)
    ensures req.tipo != Gasto ==> AttemptSpec(s, req, fault).result != Aborted(InsufficientFunds)
  {
  }

  /**
   * An attempt fails with a store error exactly when a store call raises one:
   * the lookup, or a later call of an attempt that passed both checks. The
   * error carries the driver's code unchanged.
   */
  lemma AttemptStoreErrorIff(s: Store, req: Request, fault: Option<Fault>)
    ensures var r := AttemptSpec(s, req, fault).result;
      r.Aborted? && r.reason.StoreError? <==>
        fault.Some? && (Strikes(fault, Lookup) ||
          (OriginRow(s, req).Some? && DestinationRow(s, req).Some? && !Overdraws(s, req)))
    ensures var r := AttemptSpec(s, req, fault).result;
      r.Aborted? && r.reason.StoreError? ==> r.reason.code == fault.value.code
  {
  }

  /**
   * A committed attempt appends exactly one record to the log: attributed to
   * the origin account, with the request's type, amount and payment method.
   */
  lemma CommitAppendsOneRecord(s: Store, req: Request, fault: Option<Fault>)
    requires AttemptSpec(s, req, fault).result.Committed?
    ensures OriginRow(s, req).Some?
    ensures var origin := s.accounts[OriginRow(s, req).value];
      AttemptSpec(s, req, fault).after.log ==
        s.log + [Record(origin.id, req.tipo, req.amount, req.payment, req.origin, req.destination)]
  {
  }

  /** A committed attempt touches balances only: row count, ids and owners stay, and so does the primary key. */
  lemma CommitKeepsKeys(s: Store, req: Request, fault: Option<Fault>)
    requires UniqueIds(s.accounts)
    requires AttemptSpec(s, req, fault).result.Committed?
    ensures var after := AttemptSpec(s, req, fault).after.accounts;
      && |after| == |s.accounts|
      && (forall i :: 0 <= i < |after| ==> after[i].id == s.accounts[i].id && after[i].owner == s.accounts[i].owner)
      && UniqueIds(after)
  {
  }

  /**
   * Committed transfer between two different accounts: the account with the
   * lower ID_Conta ends with the origin's balance minus the amount, the one
   * with the higher id with the destination's balance plus the amount
   * (so the roles swap when the origin's id is the higher), no other account
   * changes, and the two balances keep their sum, so the bank's total is
   * conserved.
   */
  lemma CommitDistinctAccounts(s: Store, req: Request, fault: Option<Fault>)
    requires UniqueIds(s.accounts)
    requires AttemptSpec(s, req, fault).result.Committed?
    requires OriginRow(s, req) != DestinationRow(s, req)
    ensures OriginRow(s, req).Some? && DestinationRow(s, req).Some?
    ensures var oi, di := OriginRow(s, req).value, DestinationRow(s, req).value;
      var origin, dest := s.accounts[oi], s.accounts[di];
      var lo := if origin.id < dest.id then oi else di;
      var hi := if origin.id < dest.id then di else oi;
      var after := AttemptSpec(s, req, fault).after.accounts;
      && |after| == |s.accounts|
      && after[lo].balance == origin.balance - req.amount
      && after[hi].balance == dest.balance + req.amount
      && after[oi].balance + after[di].balance == origin.balance + dest.balance
      && (forall i :: 0 <= i < |after| && i != oi && i != di ==> after[i] == s.accounts[i])
      && Total(after) == Total(s.accounts)
  {
    var oi, di := OriginRow(s, req).value, DestinationRow(s, req).value;
    CommitWrites(s, req, fault);
    WritesInIdOrder(s.accounts, oi, di, req.amount);
    TotalOfTwoChanges(s.accounts, AttemptSpec(s, req, fault).after.accounts, oi, di);
  }

  /** A committed attempt's accounts are the two writes applied to the origin and destination rows. */
  lemma CommitWrites(s: Store, req: Request, fault: Option<Fault>)
    requires AttemptSpec(s, req, fault).result.Committed?
    ensures OriginRow(s, req).Some? && DestinationRow(s, req).Some?
    ensures AttemptSpec(s, req, fault).after.accounts ==
      Writes(s.accounts, s.accounts[OriginRow(s, req).value], s.accounts[DestinationRow(s, req).value], req.amount)
  {
  }

  /** The writes when the origin has the lower id: the origin is debited, the destination credited. */
  lemma WritesAscending(rows: seq<Account>, oi: nat, di: nat, v: int)
    requires UniqueIds(rows)
    requires oi < |rows| && di < |rows| && rows[oi].id < rows[di].id
    ensures var after := Writes(rows, rows[oi], rows[di], v);
      && |after| == |rows|
      && after[oi].balance == rows[oi].balance - v
      && after[di].balance == rows[di].balance + v
      && (forall i :: 0 <= i < |after| && i != oi && i != di ==> after[i] == rows[i])
  {
    TwoWrites(rows, oi, di, rows[oi].balance - v, rows[di].balance + v);
  }

  /** The writes when the origin has the higher id: the destination gets the origin's figure and vice versa. */
  lemma WritesDescending(rows: seq<Account>, oi: nat, di: nat, v: int)
    requires UniqueIds(rows)
    requires oi < |rows| && di < |rows| && rows[di].id < rows[oi].id
    ensures var after := Writes(rows, rows[oi], rows[di], v);
      && |after| == |rows|
      && after[di].balance == rows[oi].balance - v
      && after[oi].balance == rows[di].balance + v
      && (forall i :: 0 <= i < |after| && i != oi && i != di ==> after[i] == rows[i])
  {
    TwoWrites(rows, di, oi, rows[oi].balance - v, rows[di].balance + v);
  }

  /** The writes as written, for two rows with different ids: lower id first, origin's figure first. */
  lemma WritesInIdOrder(rows: seq<Account>, oi: nat, di: nat, v: int)
    requires UniqueIds(rows)
    requires oi < |rows| && di < |rows| && oi != di
    ensures var origin, dest := rows[oi], rows[di];
      var lo := if origin.id < dest.id then oi else di;
      var hi := if origin.id < dest.id then di else oi;
      var after := Writes(rows, origin, dest, v);
      && |after| == |rows|
      && after[lo].balance == origin.balance - v
      && after[hi].balance == dest.balance + v
      && (forall i :: 0 <= i < |after| && i != oi && i != di ==> after[i] == rows[i])
  {
    assert rows[oi].id != rows[di].id;
    if rows[oi].id < rows[di].id {
      WritesAscending(rows, oi, di, v);
    } else {
      WritesDescending(rows, oi, di, v);
    }
  }

  /**
   * Committed transfer whose origin and destination are the same account
   * (for instance the same user on both sides): the second write overwrites
   * the first, so the balance ends at the old balance plus the amount and
   * the bank's total grows by the amount.
   */
  lemma CommitSameAccount(s: Store, req: Request, fault: Option<Fault>)
    requires UniqueIds(s.accounts)
    requires AttemptSpec(s, req, fault).result.Committed?
    requires OriginRow(s, req) == DestinationRow(s, req)
    ensures OriginRow(s, req).Some?
    ensures var k := OriginRow(s, req).value;
      var after := AttemptSpec(s, req, fault).after.accounts;
      && |after| == |s.accounts|
      && after[k].balance == s.accounts[k].balance + req.amount
      && (forall i :: 0 <= i < |after| && i != k ==> after[i] == s.accounts[i])
      && Total(after) == Total(s.accounts) + req.amount
  {
    var k := OriginRow(s, req).value;
    var rows := s.accounts;
    var acc := rows[k];
    var mid := SetBalance(rows, acc.id, acc.balance - req.amount);
    var after := SetBalance(mid, acc.id, acc.balance + req.amount);
    assert AttemptSpec(s, req, fault).after.accounts == after;
    TotalSetBalance(rows, k, acc.balance - req.amount);
    SetBalanceKeepsUniqueIds(rows, acc.id, acc.balance - req.amount);
    TotalSetBalance(mid, k, acc.balance + req.amount);
  }

  // ---------------------------------------------------------------------------
  // The retry loop

  /** Attempt `k` ends in a contention error and is therefore retried. */
  predicate Contended(s: Store, req: Request, faults: seq<Option<Fault>>, k: nat) {
    var a := AttemptSpec(s, req, FaultAt(faults, k));
    a.result.Aborted? && IsContention(a.result.reason)
  }

  lemma {:induction false} ExhaustedFrom(s: Store, req: Request, faults: seq<Option<Fault>>, retries: nat)
    requires retries < MaxRetries
    requires forall k :: retries <= k < MaxRetries ==> Contended(s, req, faults, k)
    ensures RunFrom(s, req, faults, retries) == Run(s, RetriesExhausted, MaxRetries, MaxRetries - 1)
    decreases MaxRetries - retries
  {
    assert Contended(s, req, faults, retries);
    if retries + 1 < MaxRetries {
      ExhaustedFrom(s, req, faults, retries + 1);
    }
  }

  /**
   * When every attempt meets contention, the routine makes exactly five
   * attempts, pauses four times (not after the fifth), so 4000 ms in all,
   * fails with the "max attempts" error and leaves the store unchanged.
   */
  lemma AllContendedExhausts(s: Store, req: Request, faults: seq<Option<Fault>>)
    requires forall k :: 0 <= k < MaxRetries ==> Contended(s, req, faults, k)
    ensures TransferSpec(s, req, faults) == Run(s, RetriesExhausted, 5, 4)
    ensures TransferSpec(s, req, faults).waits * RetryDelayMs == 4000
  {
    ExhaustedFrom(s, req, faults, 0);
  }

  /** Five lock faults at the first store call of every attempt exhaust the retries. */
  lemma LockFaultsExhaust(s: Store, req: Request, faults: seq<Option<Fault>>)
    requires |faults| >= MaxRetries
    requires forall k :: 0 <= k < MaxRetries ==>
      faults[k].Some? && faults[k].value.step == Lookup &&
      (faults[k].value.code == ErLockWaitTimeout || faults[k].value.code == ErLockDeadlock)
    ensures TransferSpec(s, req, faults).outcome == RetriesExhausted
    ensures TransferSpec(s, req, faults).attempts == 5 && TransferSpec(s, req, faults).waits == 4
  {
    forall k | 0 <= k < MaxRetries ensures Contended(s, req, faults, k) {
      assert FaultAt(faults, k) == faults[k];
    }
    AllContendedExhausts(s, req, faults);
  }

  /**
   * For a request that passes both checks, five lock faults exhaust the
   * retries whichever store call of each attempt raises them, and the store
   * is left as it was.
   */
  lemma LockFaultsAtAnyStepExhaust(s: Store, req: Request, faults: seq<Option<Fault>>)
    requires OriginRow(s, req).Some? && DestinationRow(s, req).Some? && !Overdraws(s, req)
    requires |faults| >= MaxRetries
    requires forall k :: 0 <= k < MaxRetries ==>
      faults[k].Some? && (faults[k].value.code == ErLockWaitTimeout || faults[k].value.code == ErLockDeadlock)
    ensures TransferSpec(s, req, faults) == Run(s, RetriesExhausted, 5, 4)
  {
    forall k | 0 <= k < MaxRetries ensures Contended(s, req, faults, k) {
      assert FaultAt(faults, k) == faults[k];
    }
    AllContendedExhausts(s, req, faults);
  }

  lemma {:induction false} DecidedFrom(s: Store, req: Request, faults: seq<Option<Fault>>, retries: nat, k: nat)
    requires retries <= k < MaxRetries
    requires forall j :: retries <= j < k ==> Contended(s, req, faults, j)
    requires !Contended(s, req, faults, k)
    ensures var a := AttemptSpec(s, req, FaultAt(faults, k));
      RunFrom(s, req, faults, retries) ==
        if a.result.Committed? then Run(a.after, Success, k + 1, k)
        else Run(s, Failed(a.result.reason), k + 1, k)
    decreases k - retries
  {
    if retries < k {
      assert Contended(s, req, faults, retries);
      DecidedFrom(s, req, faults, retries + 1, k);
    }
  }

  /**
   * The first attempt that does not meet contention decides the call: a
   * commit returns, any other error (account not found, insufficient funds,
   * another store error) propagates at once, with no further attempt.
   */
  lemma FirstUncontendedDecides(s: Store, req: Request, faults: seq<Option<Fault>>, k: nat)
    requires k < MaxRetries
    requires forall j :: 0 <= j < k ==> Contended(s, req, faults, j)
    requires !Contended(s, req, faults, k)
    ensures var a := AttemptSpec(s, req, FaultAt(faults, k));
      TransferSpec(s, req, faults) ==
        if a.result.Committed? then Run(a.after, Success, k + 1, k)
        else Run(s, Failed(a.result.reason), k + 1, k)
  {
    DecidedFrom(s, req, faults, 0, k);
  }

  /**
   * A missing account is reported after a single attempt, without retry and
   * without any change, unless that attempt's lookup raised a store error.
   */
  lemma MissingAccountNotRetried(s: Store, req: Request, faults: seq<Option<Fault>>)
    requires OriginRow(s, req).None? || DestinationRow(s, req).None?
    requires !Strikes(FaultAt(faults, 0), Lookup)
    ensures TransferSpec(s, req, faults) == Run(s, Failed(AccountNotFound), 1, 0)
  {
  }

  /** An overdrawing "gasto" is refused after a single attempt with no change, unless the lookup raised a store error. */
  lemma OverdraftNotRetried(s: Store, req: Request, faults: seq<Option<Fault>>)
    requires OriginRow(s, req).Some? && DestinationRow(s, req).Some? && Overdraws(s, req)
    requires !Strikes(FaultAt(faults, 0), Lookup)
    ensures TransferSpec(s, req, faults) == Run(s, Failed(InsufficientFunds), 1, 0)
  {
  }

  lemma {:induction false} SuccessFrom(s: Store, req: Request, faults: seq<Option<Fault>>, retries: nat)
    requires retries < MaxRetries
    requires RunFrom(s, req, faults, retries).outcome == Success
    ensures RunFrom(s, req, faults, retries).after == AttemptSpec(s, req, None).after
    decreases MaxRetries - retries
  {
    var a := AttemptSpec(s, req, FaultAt(faults, retries));
    if !a.result.Committed? {
      SuccessFrom(s, req, faults, retries + 1);
    }
  }

  /**
   * Retries do not change what a transfer does: whichever attempt commits,
   * the store ends as after a single attempt that meets no store error.
   */
  lemma SuccessIsFaultFree(s: Store, req: Request, faults: seq<Option<Fault>>)
    requires TransferSpec(s, req, faults).outcome == Success
    ensures TransferSpec(s, req, faults).after == AttemptSpec(s, req, None).after
    ensures AttemptSpec(s, req, None).result == Committed
  {
    SuccessFrom(s, req, faults, 0);
  }

  // ---------------------------------------------------------------------------
  // The role swap of the two writes

  /**
   * When the origin's ID_Conta is the higher one, the writes as written
   * credit the origin and debit the destination, and a "gasto" that passed
   * the balance check can leave the origin negative.
   */
  lemma WritesSwapRoles()
    ensures var s := Store([Account(1, 2, -5000), Account(2, 1, 10000)], []);
      var req := Request(1, 2, 3000, Gasto, "card");
      var a := AttemptSpec(s, req, None);
      && a.result == Committed
      && a.after.accounts == [Account(1, 2, 7000), Account(2, 1, -2000)]
      && a.after.accounts[OriginRow(s, req).value].balance < 0
      && a.after.accounts != IntendedWrites(s.accounts, s.accounts[1], s.accounts[0], 3000)
  {
    var s := Store([Account(1, 2, -5000), Account(2, 1, 10000)], []);
    var req := Request(1, 2, 3000, Gasto, "card");
    assert OriginRow(s, req) == Some(1);
    assert DestinationRow(s, req) == Some(0);
    var mid := SetBalance(s.accounts, 1, 7000);
    assert mid == [Account(1, 2, 7000), Account(2, 1, 10000)];
    assert SetBalance(mid, 2, -2000) == [Account(1, 2, 7000), Account(2, 1, -2000)];
    var fixed := IntendedWrites(s.accounts, s.accounts[1], s.accounts[0], 3000);
    assert fixed[1].balance == 7000;
  }

  /**
   * The writes as the source's comments above the two updates name them
   * ("Atualizar a conta de origem" and "Atualizar a conta de destino"): still
   * issued in ascending ID_Conta order, but the origin is debited and the
   * destination credited.
   */
  function IntendedWrites(rows: seq<Account>, origin: Account, dest: Account, v: int): (r: seq<Account>)
    ensures |r| == |rows|
  {
    var debit := origin.balance - v;
    var credit := dest.balance + v;
    if dest.id < origin.id then SetBalance(SetBalance(rows, dest.id, credit), origin.id, debit)
    else SetBalance(SetBalance(rows, origin.id, debit), dest.id, credit)
  }

  /**
   * With the corrected writes, between two different accounts the origin
   * ends with its balance minus the amount and the destination with its
   * balance plus the amount, nothing else changes, the total is conserved,
   * and a "gasto" that passed the balance check leaves the origin non-negative.
   */
  lemma IntendedWritesRoles(rows: seq<Account>, oi: nat, di: nat, v: int, tipo: string)
    requires UniqueIds(rows)
    requires oi < |rows| && di < |rows| && oi != di
    requires !(tipo == Gasto && rows[oi].balance < v)
    ensures var after := IntendedWrites(rows, rows[oi], rows[di], v);
      && |after| == |rows|
      && after[oi].balance == rows[oi].balance - v
      && after[di].balance == rows[di].balance + v
      && (forall i :: 0 <= i < |after| && i != oi && i != di ==> after[i] == rows[i])
      && Total(after) == Total(rows)
      && (tipo == Gasto ==> after[oi].balance >= 0)
  {
    var debit, credit := rows[oi].balance - v, rows[di].balance + v;
    if rows[di].id < rows[oi].id {
      TwoWrites(rows, di, oi, credit, debit);
    } else {
      TwoWrites(rows, oi, di, debit, credit);
    }
    TotalOfTwoChanges(rows, IntendedWrites(rows, rows[oi], rows[di], v), oi, di);
  }
}
