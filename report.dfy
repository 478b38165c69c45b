/**
 * The totals of `GET /relatorio`: the transactions of the accounts owned by
 * one user, their count, and the sums of their amounts by type.
 */
module Report {
  import opened Common
  import opened Ledger
  import opened Transfer

  /** The figures the report renders (totalSaldo is not part of this model). */
  datatype Summary = Summary(totalTransacoes: nat, totalDepositos: int, totalGastos: int)

  /** `contas.map(conta => conta.ID_Conta)` for the accounts whose ID_Usuario is `u`. */
  function AccountIdsOf(rows: seq<Account>, u: UserId): (ids: set<AccountId>)
    ensures forall i :: 0 <= i < |rows| && rows[i].owner == u ==> rows[i].id in ids
    ensures forall id :: id in ids ==> exists i :: 0 <= i < |rows| && rows[i].owner == u && rows[i].id == id
  {
    set i | 0 <= i < |rows| && rows[i].owner == u :: rows[i].id
  }

  /** `Transacao.findAll({ where: { ID_Conta: ids } })`, in log order. */
  function RecordsOf(log: seq<Record>, ids: set<AccountId>): (r: seq<Record>)
    ensures |r| <= |log|
    ensures forall i :: 0 <= i < |r| ==> r[i] in log && r[i].account in ids
    ensures forall i :: 0 <= i < |log| && log[i].account in ids ==> log[i] in r
  {
    if log == [] then []
    else RecordsOf(log[..|log| - 1], ids) + (if log[|log| - 1].account in ids then [log[|log| - 1]] else [])
  }

  /** `transacoes.filter(transacao => transacao.tipo === tipo)`. */
  function OfType(rows: seq<Record>, tipo: string): (r: seq<Record>)
    ensures |r| <= |rows|
    ensures forall i :: 0 <= i < |r| ==> r[i] in rows && r[i].tipo == tipo
    ensures forall i :: 0 <= i < |rows| && rows[i].tipo == tipo ==> rows[i] in r
  {
    if rows == [] then []
    else OfType(rows[..|rows| - 1], tipo) + (if rows[|rows| - 1].tipo == tipo then [rows[|rows| - 1]] else [])
  }

  /**
   * The records found are those of the log attributed to the accounts, each
   * as many times as the log holds it and no other record.
   */
  lemma {:induction false} RecordsOfCounts(log: seq<Record>, ids: set<AccountId>)
    ensures forall x :: multiset(RecordsOf(log, ids))[x] == if x.account in ids then multiset(log)[x] else 0
  {
    if log != [] {
      var init, last := log[..|log| - 1], log[|log| - 1];
      RecordsOfCounts(init, ids);
      assert log == init + [last];
    }
  }

  /** The records of a type are exactly those of the input with that type, each as many times as the input holds it. */
  lemma {:induction false} OfTypeCounts(rows: seq<Record>, tipo: string)
    ensures forall x :: multiset(OfType(rows, tipo))[x] == if x.tipo == tipo then multiset(rows)[x] else 0
  {
    if rows != [] {
      var init, last := rows[..|rows| - 1], rows[|rows| - 1];
      OfTypeCounts(init, tipo);
      assert rows == init + [last];
    }
  }

  /** `.reduce((acc, transacao) => acc + transacao.valor, 0)`: a left fold from 0. */
  function SumValor(rows: seq<Record>): (r: int)
    ensures (forall i :: 0 <= i < |rows| ==> rows[i].valor >= 0) ==> r >= 0
  {
    if rows == [] then 0 else SumValor(rows[..|rows| - 1]) + rows[|rows| - 1].valor
  }

  /** `totalDepositos`: the "deposito" records filtered out, then their amounts summed. */
  function TotalDepositos(rows: seq<Record>): (r: int)
    ensures r == AmountOfType(rows, Deposito)
  {
    FilterSumIsAmountOfType(rows, Deposito);
    SumValor(OfType(rows, Deposito))
  }

  /** `totalGastos`: the "gasto" records filtered out, then their amounts summed. */
  function TotalGastos(rows: seq<Record>): (r: int)
    ensures r == AmountOfType(rows, Gasto)
  {
    FilterSumIsAmountOfType(rows, Gasto);
    SumValor(OfType(rows, Gasto))
  }

  /** The figures over the records found: their number and the two totals. */
  function Summarize(rows: seq<Record>): (r: Summary)
    ensures r.totalTransacoes == |rows|
    ensures r.totalDepositos == AmountOfType(rows, Deposito) && r.totalGastos == AmountOfType(rows, Gasto)
  {
    Summary(|rows|, TotalDepositos(rows), TotalGastos(rows))
  }

  /**
   * The report of user `u` over the store `s` (the route always asks for
   * user 1): the number of u's records, and per type the same sum as adding
   * the amounts of that type record by record.
   */
  function Relatorio(s: Store, u: UserId): (r: Summary)
    ensures var rows := RecordsOf(s.log, AccountIdsOf(s.accounts, u));
      && r.totalTransacoes == |rows| <= |s.log|
      && r.totalDepositos == AmountOfType(rows, Deposito)
      && r.totalGastos == AmountOfType(rows, Gasto)
  {
    Summarize(RecordsOf(s.log, AccountIdsOf(s.accounts, u)))
  }

  /** An independent reference for a type's total: the sum, record by record, of the amounts of that type. */
  function AmountOfType(rows: seq<Record>, tipo: string): int {
    if rows == [] then 0 else (if rows[0].tipo == tipo then rows[0].valor else 0) + AmountOfType(rows[1..], tipo)
  }

  lemma {:induction false} SumValorAppend(a: seq<Record>, b: seq<Record>)
    ensures SumValor(a + b) == SumValor(a) + SumValor(b)
    decreases |b|
  {
    if b != [] {
      assert (a + b)[..|a + b| - 1] == a + b[..|b| - 1];
      SumValorAppend(a, b[..|b| - 1]);
    } else {
      assert a + b == a;
    }
  }

  lemma {:induction false} OfTypeAppend(a: seq<Record>, b: seq<Record>, tipo: string)
    ensures OfType(a + b, tipo) == OfType(a, tipo) + OfType(b, tipo)
    decreases |b|
  {
    if b != [] {
      assert (a + b)[..|a + b| - 1] == a + b[..|b| - 1];
      OfTypeAppend(a, b[..|b| - 1], tipo);
    } else {
      assert a + b == a;
    }
  }

  /** Filtering by type and then summing gives exactly the amounts of that type, added record by record. */
  lemma {:induction false} FilterSumIsAmountOfType(rows: seq<Record>, tipo: string)
    ensures SumValor(OfType(rows, tipo)) == AmountOfType(rows, tipo)
  {
    if rows != [] {
      var head := [rows[0]];
      assert rows == head + rows[1..];
      OfTypeAppend(head, rows[1..], tipo);
      assert head[..0] == [];
      SumValorAppend(OfType(head, tipo), OfType(rows[1..], tipo));
      FilterSumIsAmountOfType(rows[1..], tipo);
    }
  }

  /** When every record is a "deposito" or a "gasto", the two totals add up to the sum of all amounts. */
  lemma {:induction false} TotalsCoverAll(rows: seq<Record>)
    requires forall i :: 0 <= i < |rows| ==> rows[i].tipo == Deposito || rows[i].tipo == Gasto
    ensures TotalDepositos(rows) + TotalGastos(rows) == SumValor(rows)
  {
    if rows != [] {
      var init := rows[..|rows| - 1];
      assert forall i :: 0 <= i < |init| ==> init[i] == rows[i];
      TotalsCoverAll(init);
      var last := rows[|rows| - 1];
      SumValorAppend(OfType(init, Deposito), if last.tipo == Deposito then [last] else []);
      SumValorAppend(OfType(init, Gasto), if last.tipo == Gasto then [last] else []);
    }
  }

  /**
   * A committed transfer whose origin is owned by `u` adds one record to u's
   * report and its amount to the total of its type; a transfer from anyone
   * else leaves u's report as it was.
   */
  lemma ReportAfterCommit(s: Store, req: Request, fault: Option<Fault>, u: UserId)
    requires UniqueIds(s.accounts)
    requires AttemptSpec(s, req, fault).result.Committed?
    ensures var before := Relatorio(s, u);
      var after := Relatorio(AttemptSpec(s, req, fault).after, u);
      if req.origin == u then
        && after.totalTransacoes == before.totalTransacoes + 1
        && after.totalDepositos == before.totalDepositos + (if req.tipo == Deposito then req.amount else 0)
        && after.totalGastos == before.totalGastos + (if req.tipo == Gasto then req.amount else 0)
      else after == before
  {
    var a := AttemptSpec(s, req, fault);
    CommitKeepsKeys(s, req, fault);
    CommitAppendsOneRecord(s, req, fault);
    var ids := AccountIdsOf(s.accounts, u);
    assert AccountIdsOf(a.after.accounts, u) == ids;
    var k := OriginRow(s, req).value;
    var rec := RecordOf(req, s.accounts[k]);
    assert a.after.log == s.log + [rec];
    assert (s.log + [rec])[..|s.log|] == s.log;
    var rows := RecordsOf(s.log, ids);
    if req.origin == u {
      assert rec.account in ids;
      assert RecordsOf(a.after.log, ids) == rows + [rec];
      assert [rec][..0] == [];
      OfTypeAppend(rows, [rec], Deposito);
      SumValorAppend(OfType(rows, Deposito), OfType([rec], Deposito));
      OfTypeAppend(rows, [rec], Gasto);
      SumValorAppend(OfType(rows, Gasto), OfType([rec], Gasto));
    } else {
      assert rec.account !in ids;
      assert RecordsOf(a.after.log, ids) == rows;
    }
  }
}
