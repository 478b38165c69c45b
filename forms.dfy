/**
 * The request checks in front of the two money routes: the five fields of
 * `POST /transacao/realizar` and the three of `POST /transacao`, each followed
 * by `parseFloat` of the amount and the NaN / non-positive test.
 */
module Forms {
  import opened Common

  /** A value of a urlencoded request body: absent, or the text that was sent. */
  type Field = Option<string>

  /**
   * JavaScript's `!x` on a body field: the field is absent or empty. Any text
   * of one character or more passes, "0" and " " included.
   */
  predicate Falsy(f: Field): (b: bool)
    ensures !b <==> f.Some? && |f.value| >= 1
  {
    f.None? || f.value == ""
  }

  /** Why a route answers 400 before touching the store. */
  datatype Rejection = MissingField | InvalidAmount

  datatype TransferForm = TransferForm(usuarioOrigem: Field, usuarioDestino: Field, valor: Field,
                                       tipoTransacao: Field, formaPagamento: Field)

  datatype CreditForm = CreditForm(usuarioId: Field, contaId: Field, valor: Field)

  // ---------------------------------------------------------------------------
  // parseFloat

  predicate IsDigit(c: char) {
    '0' <= c <= '9'
  }

  predicate AllDigits(s: string) {
    forall i :: 0 <= i < |s| ==> IsDigit(s[i])
  }

  /** The white-space characters parseFloat skips before the number. */
  predicate IsSpace(c: char) {
    c == ' ' || c == '\t' || c == '\n' || c == '\r' || c == '\U{000B}' || c == '\U{000C}'
    || c == '\U{00A0}' || c == '\U{2028}' || c == '\U{2029}' || c == '\U{FEFF}'
  }

  function TrimStart(s: string): (r: string)
    ensures r == [] || !IsSpace(r[0])
  {
    if s != [] && IsSpace(s[0]) then TrimStart(s[1..]) else s
  }

  /** The longest prefix of `s` made of decimal digits. */
  function DigitPrefix(s: string): (r: string)
    ensures |r| <= |s| && r == s[..|r|] && AllDigits(r)
    ensures |r| < |s| ==> !IsDigit(s[|r|])
  {
    if s != [] && IsDigit(s[0]) then [s[0]] + DigitPrefix(s[1..]) else []
  }

  /** The number a string of decimal digits denotes, most significant first. */
  function DigitsValue(ds: string): nat
    requires AllDigits(ds)
  {
    if ds == [] then 0 else DigitsValue(ds[..|ds| - 1]) * 10 + (ds[|ds| - 1] - '0') as nat
  }

  function Pow10(n: nat): (r: nat)
    ensures r >= 1
  {
    if n == 0 then 1 else 10 * Pow10(n - 1)
  }

  /**
   * `parseFloat(s)` as an exact decimal: leading white space, an optional
   * sign, integer digits, optionally a point and fraction digits, at least
   * one digit in all; whatever follows is ignored. None stands for NaN:
   * after the white space and the sign there is neither a digit nor a point
   * followed by a digit. ParseFloatValue states which number is read.
   */
  function ParseFloat(s: string): (r: Option<real>)
    ensures var u := Unsigned(TrimStart(s));
      r.None? <==> (u == [] || !IsDigit(u[0])) && !(|u| >= 2 && u[0] == '.' && IsDigit(u[1]))
  {
    SignedReading(TrimStart(s))
  }

  /** The number at the start of text with no leading white space: the magnitude, negated after a minus sign. */
  function SignedReading(t: string): Option<real> {
    match Magnitude(Unsigned(t))
    case None => None
    case Some(m) => Some(if t != [] && t[0] == '-' then -m else m)
  }

  /** A magnitude with a sign applied. */
  function Signed(sign: string, m: real): real {
    if IsMinus(sign) then -m else m
  }

  /** The number at the start of unsigned text: integer digits, then optionally a point and fraction digits. */
  function Magnitude(u: string): (r: Option<real>)
    ensures r.None? <==> (u == [] || !IsDigit(u[0])) && !(|u| >= 2 && u[0] == '.' && IsDigit(u[1]))
    ensures r.Some? ==> r.value >= 0.0
  {
    var ip := DigitPrefix(u);
    var fp := FractionDigits(u[|ip|..]);
    if ip == [] && fp == [] then None else Some(DecimalMagnitude(ip, fp))
  }

  /** The value of integer digits `ip` followed by fraction digits `fp`. */
  function DecimalMagnitude(ip: string, fp: string): (r: real)
    requires AllDigits(ip) && AllDigits(fp)
    ensures r >= 0.0
  {
    DigitsValue(ip) as real + DigitsValue(fp) as real / Pow10(|fp|) as real
  }

  /** The text after an optional leading sign. */
  function Unsigned(t: string): (r: string)
    ensures r == t || (t != [] && (t[0] == '-' || t[0] == '+') && r == t[1..])
  {
    if t != [] && (t[0] == '-' || t[0] == '+') then t[1..] else t
  }

  /** The digits after a leading decimal point, if there is one. */
  function FractionDigits(rest: string): (r: string)
    ensures AllDigits(r)
    ensures rest == [] || rest[0] != '.' ==> r == []
  {
    if rest != [] && rest[0] == '.' then DigitPrefix(rest[1..]) else []
  }

  // ---------------------------------------------------------------------------
  // The checks

  /** `parseFloat(valor)`, then `isNaN(v) || v <= 0` answers 400. */
  function CheckAmount(valor: string): (r: Result<real, Rejection>)
    ensures r.Ok? <==> ParseFloat(valor).Some? && ParseFloat(valor).value > 0.0
    ensures r.Ok? ==> r.value == ParseFloat(valor).value
    ensures r.Err? ==> r.error == InvalidAmount
  {
    match ParseFloat(valor)
    case None => Err(InvalidAmount)
    case Some(v) => if v <= 0.0 then Err(InvalidAmount) else Ok(v)
  }

  /**
   * The checks of `POST /transacao/realizar`: any missing field first, then
   * the amount; on acceptance, the parsed amount is what the transfer receives.
   */
  function CheckTransferForm(f: TransferForm): (r: Result<real, Rejection>)
    ensures r.Ok? <==>
      && !Falsy(f.usuarioOrigem) && !Falsy(f.usuarioDestino) && !Falsy(f.valor)
      && !Falsy(f.tipoTransacao) && !Falsy(f.formaPagamento)
      && ParseFloat(f.valor.value).Some? && ParseFloat(f.valor.value).value > 0.0
    ensures r.Ok? ==> r.value > 0.0 && Some(r.value) == ParseFloat(f.valor.value)
    ensures r == Err(MissingField) <==>
      Falsy(f.usuarioOrigem) || Falsy(f.usuarioDestino) || Falsy(f.valor)
      || Falsy(f.tipoTransacao) || Falsy(f.formaPagamento)
  {
    if Falsy(f.usuarioOrigem) || Falsy(f.usuarioDestino) || Falsy(f.valor)
       || Falsy(f.tipoTransacao) || Falsy(f.formaPagamento)
    then Err(MissingField)
    else CheckAmount(f.valor.value)
  }

  /**
   * The checks of `POST /transacao`: usuarioId, contaId and valor must be
   * present (usuarioId is never used afterwards), then the amount.
   */
  function CheckCreditForm(f: CreditForm): (r: Result<real, Rejection>)
    ensures r.Ok? <==>
      && !Falsy(f.usuarioId) && !Falsy(f.contaId) && !Falsy(f.valor)
      && ParseFloat(f.valor.value).Some? && ParseFloat(f.valor.value).value > 0.0
    ensures r.Ok? ==> r.value > 0.0 && Some(r.value) == ParseFloat(f.valor.value)
    ensures r == Err(MissingField) <==> Falsy(f.usuarioId) || Falsy(f.contaId) || Falsy(f.valor)
  {
    if Falsy(f.usuarioId) || Falsy(f.contaId) || Falsy(f.valor) then Err(MissingField)
    else CheckAmount(f.valor.value)
  }

  // ---------------------------------------------------------------------------
  // Amounts written with two decimals, as `toFixed(2)` writes them

  function DigitChar(d: nat): (c: char)
    requires d < 10
    ensures IsDigit(c) && (c - '0') as nat == d
  {
    ('0' as int + d) as char
  }

  /** The decimal digits of `n`, without leading zeros. */
  function NatDigits(n: nat): (r: string)
    ensures r != [] && AllDigits(r)
  {
    if n < 10 then [DigitChar(n)] else NatDigits(n / 10) + [DigitChar(n % 10)]
  }

  /** `n` cents written as `toFixed(2)` writes them: "12.34", "-20.00". */
  function FormatCents(n: int): (r: string)
    ensures |r| >= 4 && (r[0] == '-' <==> n < 0)
    ensures r[|r| - 3] == '.' && AllDigits(r[|r| - 2..])
  {
    CentsSign(n) + UnsignedCents(Abs(n))
  }

  /** The absolute value, whose digits `toFixed` writes after the sign. */
  function Abs(n: int): (r: nat)
    ensures r == n || r == -n
  {
    if n < 0 then -n else n
  }

  /** The minus sign `toFixed` writes before a negative amount. */
  function CentsSign(n: int): (r: string)
    ensures IsSign(r) && (IsMinus(r) <==> n < 0)
  {
    if n < 0 then "-" else ""
  }

  /** A non-negative number of cents with two decimals. */
  function UnsignedCents(n: nat): (r: string)
    ensures |r| >= 4 && IsDigit(r[0])
    ensures r[|r| - 3] == '.' && AllDigits(r[|r| - 2..])
  {
    NatDigits(n / 100) + "." + TwoDigits(n % 100)
  }

  /** The two digits of a number of cents below one unit, with a leading zero. */
  function TwoDigits(m: nat): (r: string)
    requires m < 100
    ensures |r| == 2 && AllDigits(r)
  {
    [DigitChar(m / 10), DigitChar(m % 10)]
  }

  lemma TwoDigitsValue(m: nat)
    requires m < 100
    ensures DigitsValue(TwoDigits(m)) == m
  {
    var r := TwoDigits(m);
    assert r[..1][..0] == [];
    assert DigitsValue(r[..1]) == m / 10;
  }

  lemma {:induction false} NatDigitsValue(n: nat)
    ensures DigitsValue(NatDigits(n)) == n
  {
    if n >= 10 {
      var ds := NatDigits(n);
      assert ds[..|ds| - 1] == NatDigits(n / 10);
      NatDigitsValue(n / 10);
    }
  }

  lemma {:induction false} DigitPrefixStops(ds: string, rest: string)
    requires AllDigits(ds)
    requires rest == [] || !IsDigit(rest[0])
    ensures DigitPrefix(ds + rest) == ds
  {
    if ds != [] {
      assert (ds + rest)[1..] == ds[1..] + rest;
      DigitPrefixStops(ds[1..], rest);
    }
  }

  lemma CentsAsReal(n: nat)
    ensures (n / 100) as real + (n % 100) as real / Pow10(2) as real == n as real / 100.0
  {
    assert Pow10(2) == 100;
    var q, m := n / 100, n % 100;
    assert n == q * 100 + m;
    assert (n as real) == (q as real) * 100.0 + (m as real);
  }

  /** A sign as parseFloat accepts it: none, "-" or "+". */
  predicate IsSign(sign: string) {
    |sign| <= 1 && (sign != [] ==> sign[0] == '-' || sign[0] == '+')
  }

  /** The sign is a minus, which negates what follows. */
  predicate IsMinus(sign: string) {
    sign != [] && sign[0] == '-'
  }

  /** The value of integer digits `ip` and fraction digits `fp`, negated under a minus sign. */
  function DecimalValue(sign: string, ip: string, fp: string): real
    requires AllDigits(ip) && AllDigits(fp)
  {
    Signed(sign, DecimalMagnitude(ip, fp))
  }

  /**
   * What parseFloat reads from a sign and integer digits followed by a tail
   * that starts with no digit, no point and no exponent: the whole number
   * those digits denote, negated under a minus sign.
   */
  lemma ParseFloatIntegerValue(sign: string, ip: string, tail: string)
    requires IsSign(sign) && AllDigits(ip) && ip != []
    requires tail == [] || (!IsDigit(tail[0]) && tail[0] != '.' && tail[0] != 'e' && tail[0] != 'E')
    ensures ParseFloat(sign + ip + tail) == Some(Signed(sign, DigitsValue(ip) as real))
  {
    assert sign + ip + tail == sign + (ip + tail);
    WholeMagnitude(ip, tail);
    ReadBack(sign, ip + tail, DigitsValue(ip) as real, Signed(sign, DigitsValue(ip) as real));
  }

  /** The magnitude read from integer digits and a tail that starts with neither a digit nor a point. */
  lemma WholeMagnitude(ip: string, tail: string)
    requires AllDigits(ip) && ip != []
    requires tail == [] || (!IsDigit(tail[0]) && tail[0] != '.')
    ensures Magnitude(ip + tail) == Some(DigitsValue(ip) as real)
  {
    var u := ip + tail;
    DigitPrefixStops(ip, tail);
    assert u[|ip|..] == tail;
    assert FractionDigits(tail) == [];
    NoFraction(ip);
  }

  lemma NoFraction(ip: string)
    requires AllDigits(ip)
    ensures DecimalMagnitude(ip, []) == DigitsValue(ip) as real
  {
  }

  /** An amount written as bare digits, such as "30", is accepted with its value exactly when that value is not zero. */
  lemma WholeAmount(valor: string)
    requires AllDigits(valor) && valor != []
    ensures CheckAmount(valor) == if DigitsValue(valor) == 0 then Err(InvalidAmount) else Ok(DigitsValue(valor) as real)
  {
    WholeReading(valor);
    AmountOfReading(valor, DigitsValue(valor) as real);
  }

  lemma WholeReading(valor: string)
    requires AllDigits(valor) && valor != []
    ensures ParseFloat(valor) == Some(DigitsValue(valor) as real)
  {
    ParseFloatIntegerValue("", valor, "");
    assert "" + valor + "" == valor;
  }

  lemma AmountOfReading(valor: string, v: real)
    requires ParseFloat(valor) == Some(v)
    ensures CheckAmount(valor) == if v <= 0.0 then Err(InvalidAmount) else Ok(v)
  {
  }

  /** "30" is accepted as 30. */
  lemma ThirtyAccepted()
    ensures CheckAmount("30") == Ok(30.0)
  {
    WholeAmount("30");
    assert DigitsValue("30") == 30;
  }

  /** The magnitude read from integer digits, a point, fraction digits and a tail that starts with no digit. */
  lemma MagnitudeValue(ip: string, fp: string, tail: string)
    requires AllDigits(ip) && AllDigits(fp) && (ip != [] || fp != [])
    requires tail == [] || !IsDigit(tail[0])
    ensures Magnitude(ip + ("." + (fp + tail))) == Some(DecimalMagnitude(ip, fp))
  {
    var rest := "." + (fp + tail);
    DigitPrefixStops(ip, rest);
    assert (ip + rest)[|ip|..] == rest;
    assert rest[1..] == fp + tail;
    DigitPrefixStops(fp, tail);
  }

  /**
   * What parseFloat reads from a sign, integer digits, a point, fraction
   * digits and a tail that starts with neither a digit nor an exponent: the
   * decimal those digits denote, negated under a minus sign, whatever the tail.
   */
  lemma ParseFloatValue(sign: string, ip: string, fp: string, tail: string)
    requires IsSign(sign) && AllDigits(ip) && AllDigits(fp) && (ip != [] || fp != [])
    requires tail == [] || (!IsDigit(tail[0]) && tail[0] != 'e' && tail[0] != 'E')
    ensures ParseFloat(sign + ip + "." + fp + tail) == Some(DecimalValue(sign, ip, fp))
  {
    var u := ip + ("." + (fp + tail));
    Regroup(sign, ip, fp, tail);
    MagnitudeValue(ip, fp, tail);
    ParseSigned(sign, u);
  }

  /** parseFloat of a sign and unsigned text that starts with a digit or a point: the magnitude, with the sign. */
  lemma ParseSigned(sign: string, u: string)
    requires IsSign(sign) && u != [] && (IsDigit(u[0]) || u[0] == '.')
    ensures Magnitude(u).Some? ==> ParseFloat(sign + u) == Some(Signed(sign, Magnitude(u).value))
  {
    SignedText(sign, u);
    assert ParseFloat(sign + u) == SignedReading(sign + u);
  }

  /** The pieces of a signed decimal, grouped as sign and unsigned text. */
  lemma Regroup(sign: string, ip: string, fp: string, tail: string)
    ensures sign + ip + "." + fp + tail == sign + (ip + ("." + (fp + tail)))
  {
  }

  /** Text that starts with a sign and then a digit or a point has no white space to skip and loses just the sign. */
  lemma SignedText(sign: string, u: string)
    requires IsSign(sign) && u != [] && (IsDigit(u[0]) || u[0] == '.')
    ensures TrimStart(sign + u) == sign + u
    ensures Unsigned(sign + u) == u
    ensures (sign + u)[0] == '-' <==> IsMinus(sign)
  {
    var s := sign + u;
    if sign == [] {
      assert s == u;
      assert !IsSpace(u[0]);
    } else {
      assert s[0] == sign[0] && s[1..] == u;
      assert !IsSpace(s[0]);
    }
  }

  /** The digits of a non-negative number of cents read back as that many hundredths. */
  lemma UnsignedCentsValue(m: nat)
    ensures Magnitude(UnsignedCents(m)) == Some(m as real / 100.0)
  {
    var ip, fp := NatDigits(m / 100), TwoDigits(m % 100);
    assert UnsignedCents(m) == ip + ("." + (fp + []));
    MagnitudeValue(ip, fp, []);
    NatDigitsValue(m / 100);
    TwoDigitsValue(m % 100);
    CentsAsReal(m);
  }

  /** Reading back an amount written with two decimals gives the amount, negative ones included. */
  lemma ParseFormatCents(n: int)
    ensures ParseFloat(FormatCents(n)) == Some(n as real / 100.0)
  {
    FormatCentsReads(n);
    SignedCents(n);
  }

  /** An amount written with two decimals reads back as its sign applied to its absolute value in hundredths. */
  lemma FormatCentsReads(n: int)
    ensures ParseFloat(FormatCents(n)) == Some(Signed(CentsSign(n), Abs(n) as real / 100.0))
  {
    ReadBackCents(CentsSign(n), Abs(n), Signed(CentsSign(n), Abs(n) as real / 100.0));
  }

  /** The sign CentsSign writes, applied to the hundredths of the absolute value, gives back the amount. */
  lemma SignedCents(n: int)
    ensures Some(Signed(CentsSign(n), Abs(n) as real / 100.0)) == Some(n as real / 100.0)
  {
  }

  /** A sign followed by the two-decimal digits of `m` cents reads back as `m` hundredths with that sign. */
  lemma ReadBackCents(sign: string, m: nat, w: real)
    requires IsSign(sign) && w == Signed(sign, m as real / 100.0)
    ensures ParseFloat(sign + UnsignedCents(m)) == Some(w)
  {
    UnsignedCentsValue(m);
    ReadBack(sign, UnsignedCents(m), m as real / 100.0, w);
  }

  /** A sign before text whose magnitude is `v` reads back as `v` with that sign. */
  lemma ReadBack(sign: string, u: string, v: real, w: real)
    requires IsSign(sign) && u != [] && IsDigit(u[0])
    requires Magnitude(u) == Some(v) && w == Signed(sign, v)
    ensures ParseFloat(sign + u) == Some(w)
  {
    ParseSigned(sign, u);
  }

  /** A form with every field filled and a positive two-decimal amount is accepted with that amount. */
  lemma AcceptsFormattedAmount(f: TransferForm, n: nat)
    requires n > 0
    requires f.valor == Some(FormatCents(n))
    requires !Falsy(f.usuarioOrigem) && !Falsy(f.usuarioDestino)
    requires !Falsy(f.tipoTransacao) && !Falsy(f.formaPagamento)
    ensures CheckTransferForm(f) == Ok(n as real / 100.0)
  {
    ParseFormatCents(n);
  }
}
