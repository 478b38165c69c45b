/**
 * The part of the relational store that the transfer routine touches: the
 * table of bank accounts (ContaBancaria) and the append-only table of
 * transaction records (Transacao). Money is held in integer cents.
 */
module Ledger {
  import opened Common

  type UserId = int
  type AccountId = int

  /** One row of the accounts table: ID_Conta, ID_Usuario and saldo_atual (cents). */
  datatype Account = Account(id: AccountId, owner: UserId, balance: int)

  /**
   * One row of the transactions table: ID_Conta, tipo, valor (cents) and
   * forma_pagamento; the two user ids are the inputs of the generated descricao.
   */
  datatype Record = Record(account: AccountId, tipo: string, valor: int, payment: string,
                           origin: UserId, destination: UserId)

  /** The contents of both tables at one moment. */
  datatype Store = Store(accounts: seq<Account>, log: seq<Record>)

  /** ID_Conta is the primary key of the accounts table. */
  predicate UniqueIds(rows: seq<Account>) {
    forall i, j :: 0 <= i < |rows| && 0 <= j < |rows| && i != j ==> rows[i].id != rows[j].id
  }

  /** `findOne({ where: { ID_Usuario: u } })`: the position of the first row owned by `u`. */
  function FindByOwner(rows: seq<Account>, u: UserId): (r: Option<nat>)
    ensures r.Some? ==> r.value < |rows| && rows[r.value].owner == u
    ensures r.Some? ==> forall j :: 0 <= j < r.value ==> rows[j].owner != u
    ensures r.None? <==> forall j :: 0 <= j < |rows| ==> rows[j].owner != u
  {
    if rows == [] then None
    else if rows[0].owner == u then Some(0)
    else match FindByOwner(rows[1..], u)
      case None => None
      case Some(k) => Some(k + 1)
  }

  /** `findByPk(id)`: the position of the row whose ID_Conta is `id`. */
  function FindById(rows: seq<Account>, id: AccountId): (r: Option<nat>)
    ensures r.Some? ==> r.value < |rows| && rows[r.value].id == id
    ensures r.Some? ==> forall j :: 0 <= j < r.value ==> rows[j].id != id
    ensures r.None? <==> forall j :: 0 <= j < |rows| ==> rows[j].id != id
  {
    if rows == [] then None
    else if rows[0].id == id then Some(0)
    else match FindById(rows[1..], id)
      case None => None
      case Some(k) => Some(k + 1)
  }

  /** `UPDATE ... SET saldo_atual = b WHERE ID_Conta = id`: every row with that id gets balance `b`. */
  function SetBalance(rows: seq<Account>, id: AccountId, b: int): (r: seq<Account>)
    ensures |r| == |rows|
  {
    seq(|rows|, i requires 0 <= i < |rows| => if rows[i].id == id then rows[i].(balance := b) else rows[i])
  }

  /**
   * What an update does: the rows with that id get the new balance, ids and
   * owners are kept, and every other row is untouched. Kept apart from
   * SetBalance so that proofs that do not need it do not pay for it.
   */
  lemma SetBalanceEffect(rows: seq<Account>, id: AccountId, b: int)
    ensures var r := SetBalance(rows, id, b);
      && (forall i :: 0 <= i < |rows| ==> r[i].id == rows[i].id && r[i].owner == rows[i].owner)
      && (forall i :: 0 <= i < |rows| && rows[i].id != id ==> r[i] == rows[i])
      && (forall i :: 0 <= i < |rows| && rows[i].id == id ==> r[i].balance == b)
  {
  }

  /** The sum of every account's balance: the money held by the bank. */
  function Total(rows: seq<Account>): int {
    if rows == [] then 0 else rows[0].balance + Total(rows[1..])
  }

  /** Writing a balance keeps the primary key unique: ids are never touched. */
  lemma SetBalanceKeepsUniqueIds(rows: seq<Account>, id: AccountId, b: int)
    requires UniqueIds(rows)
    ensures UniqueIds(SetBalance(rows, id, b))
  {
  }

  /** An update whose WHERE matches no row leaves the table as it was. */
  lemma SetBalanceAbsent(rows: seq<Account>, id: AccountId, b: int)
    requires forall j :: 0 <= j < |rows| ==> rows[j].id != id
    ensures SetBalance(rows, id, b) == rows
  {
  }

  /**
   * Setting the balance of one account (ids unique) changes the bank's total
   * by exactly the difference between the new and the old balance.
   */
  lemma {:induction false} TotalSetBalance(rows: seq<Account>, k: nat, b: int)
    requires UniqueIds(rows)
    requires k < |rows|
    ensures Total(SetBalance(rows, rows[k].id, b)) == Total(rows) - rows[k].balance + b
  {
    var id := rows[k].id;
    var r := SetBalance(rows, id, b);
    assert r[1..] == SetBalance(rows[1..], id, b);
    if k == 0 {
      SetBalanceAbsent(rows[1..], id, b);
    } else {
      assert rows[0].id != id;
      assert rows[1..][k - 1] == rows[k];
      TotalSetBalance(rows[1..], k - 1, b);
    }
  }

  /**
   * Two updates of two different accounts (ids unique): each gets its new
   * balance, every other row is untouched, and the total changes by both
   * differences.
   */
  lemma TwoWrites(rows: seq<Account>, i: nat, j: nat, bi: int, bj: int)
    requires UniqueIds(rows)
    requires i < |rows| && j < |rows| && i != j
    ensures var after := SetBalance(SetBalance(rows, rows[i].id, bi), rows[j].id, bj);
      && |after| == |rows|
      && after[i].balance == bi
      && after[j].balance == bj
      && (forall k :: 0 <= k < |rows| && k != i && k != j ==> after[k] == rows[k])
      && Total(after) == Total(rows) - rows[i].balance + bi - rows[j].balance + bj
  {
    var mid := SetBalance(rows, rows[i].id, bi);
    SetBalanceEffect(rows, rows[i].id, bi);
    SetBalanceEffect(mid, rows[j].id, bj);
    TotalSetBalance(rows, i, bi);
    SetBalanceKeepsUniqueIds(rows, rows[i].id, bi);
    TotalSetBalance(mid, j, bj);
  }

  /** Two tables that differ in one row's balance differ in total by exactly that difference. */
  lemma {:induction false} TotalOfOneChange(a: seq<Account>, b: seq<Account>, k: nat)
    requires |a| == |b| && k < |a|
    requires forall i :: 0 <= i < |a| && i != k ==> a[i].balance == b[i].balance
    ensures Total(b) == Total(a) - a[k].balance + b[k].balance
  {
    if k == 0 {
      TotalOfNoChange(a[1..], b[1..]);
    } else {
      TotalOfOneChange(a[1..], b[1..], k - 1);
    }
  }

  /** Two tables whose balances agree row by row have the same total. */
  lemma {:induction false} TotalOfNoChange(a: seq<Account>, b: seq<Account>)
    requires |a| == |b|
    requires forall i :: 0 <= i < |a| ==> a[i].balance == b[i].balance
    ensures Total(b) == Total(a)
  {
    if a != [] {
      TotalOfNoChange(a[1..], b[1..]);
    }
  }

  /**
   * Two tables that differ only in the balances of rows i and j, where those
   * two balances keep their sum, have the same total: a transfer between two
   * accounts conserves the bank's money.
   */
  lemma TotalOfTwoChanges(a: seq<Account>, b: seq<Account>, i: nat, j: nat)
    requires |a| == |b| && i < |a| && j < |a| && i != j
    requires forall k :: 0 <= k < |a| && k != i && k != j ==> a[k] == b[k]
    requires a[i].balance + a[j].balance == b[i].balance + b[j].balance
    ensures Total(b) == Total(a)
  {
    var c := a[i := b[i]];
    TotalOfOneChange(a, c, i);
    TotalOfOneChange(c, b, j);
  }
}
