/**
 * The `limit`/`offset` query-parameter rule that every listing handler
 * repeats: a limit is taken only when `strconv.Atoi` accepts it and it lies in
 * 1..max, otherwise the handler's default; an offset only when it parses and
 * is not negative, otherwise 0.
 */
module Paging {
  import opened Wrappers
  import opened Bytes

  predicate IsDigit(c: char) {
    '0' <= c <= '9'
  }

  predicate AllDigits(s: string) {
    forall i :: 0 <= i < |s| ==> IsDigit(s[i])
  }

  /** Decimal value of a digit string, most significant digit first. */
  function DigitsValue(s: string): nat
    requires AllDigits(s)
  {
    if s == [] then 0 else 10 * DigitsValue(s[..|s| - 1]) + (s[|s| - 1] as int - '0' as int)
  }

  /**
   * `strconv.Atoi`: an optional sign, then one or more decimal digits, and a
   * value that fits in 64 bits; anything else is an error (None).
   */
  function Atoi(s: string): (r: Option<int>)
    ensures r.Some? ==> MinInt64 <= r.value <= MaxInt64
    ensures s == "" ==> r.None?
  {
    var signed := |s| > 0 && (s[0] == '+' || s[0] == '-');
    var body := if signed then s[1..] else s;
    if body == [] || !AllDigits(body) then None
    else
      var v: int := if signed && s[0] == '-' then -(DigitsValue(body) as int) else DigitsValue(body);
      if MinInt64 <= v <= MaxInt64 then Some(v) else None
  }

  function DigitChar(d: nat): (c: char)
    requires d < 10
    ensures IsDigit(c)
  {
    ('0' as int + d) as char
  }

  /** The decimal digits of n, most significant first, without leading zeros. */
  function Digits(n: nat): (s: string)
    ensures s != [] && AllDigits(s)
  {
    if n < 10 then [DigitChar(n)] else Digits(n / 10) + [DigitChar(n % 10)]
  }

  lemma {:induction false} DigitsValueOfDigits(n: nat)
    ensures DigitsValue(Digits(n)) == n
  {
    if n >= 10 {
      DigitsValueOfDigits(n / 10);
      var s := Digits(n);
      assert s[..|s| - 1] == Digits(n / 10);
    }
  }

  /** `strconv.Itoa`: a minus sign for negative numbers, then the decimal digits. */
  function Itoa(n: int): (s: string)
    ensures s != []
  {
    if n < 0 then "-" + Digits(-n) else Digits(n)
  }

  /** Every 64-bit integer, printed in decimal, parses back to itself, and so does its "+"-signed form. */
  lemma AtoiItoa(n: int)
    requires MinInt64 <= n <= MaxInt64
    ensures Atoi(Itoa(n)) == Some(n)
    ensures n >= 0 ==> Atoi("+" + Itoa(n)) == Some(n)
  {
    if n < 0 {
      DigitsValueOfDigits(-n);
      assert Itoa(n)[1..] == Digits(-n);
    } else {
      DigitsValueOfDigits(n);
      assert IsDigit(Itoa(n)[0]);
      assert ("+" + Itoa(n))[1..] == Digits(n);
    }
  }

  /** The `limit` rule with the handler's default and ceiling. */
  function QueryLimit(raw: string, default: int, max: int): (limit: int)
    requires 0 < default <= max
    ensures 0 < limit <= max
    ensures limit == default || Atoi(raw) == Some(limit)
    ensures (Atoi(raw).Some? && 0 < Atoi(raw).value <= max) ==> limit == Atoi(raw).value
  {
    if raw != "" && Atoi(raw).Some? && 0 < Atoi(raw).value <= max then Atoi(raw).value else default
  }

  /** The `offset` rule. */
  function QueryOffset(raw: string): (offset: int)
    ensures offset >= 0
    ensures offset == 0 || Atoi(raw) == Some(offset)
    ensures (Atoi(raw).Some? && Atoi(raw).value >= 0) ==> offset == Atoi(raw).value
  {
    if raw != "" && Atoi(raw).Some? && Atoi(raw).value >= 0 then Atoi(raw).value else 0
  }

  /**
   * The page `GetAllCases` and `GetAllOrders` both read: 20 entries by
   * default, at most 100, from offset 0 by default.
   */
  function ListPage(limitRaw: string, offsetRaw: string): (page: (int, int))
    ensures 0 < page.0 <= 100 && page.1 >= 0
    ensures limitRaw == "" ==> page.0 == 20
    ensures offsetRaw == "" ==> page.1 == 0
    ensures (Atoi(limitRaw).Some? && 0 < Atoi(limitRaw).value <= 100) ==> page.0 == Atoi(limitRaw).value
    ensures !(Atoi(limitRaw).Some? && 0 < Atoi(limitRaw).value <= 100) ==> page.0 == 20
    ensures (Atoi(offsetRaw).Some? && Atoi(offsetRaw).value >= 0) ==> page.1 == Atoi(offsetRaw).value
    ensures !(Atoi(offsetRaw).Some? && Atoi(offsetRaw).value >= 0) ==> page.1 == 0
  {
    (QueryLimit(limitRaw, 20, 100), QueryOffset(offsetRaw))
  }
}
