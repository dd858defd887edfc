/** request_key: the map key of a JSON-RPC request id. */
module RequestKey {

  /** A JSON value used as an id; a parser yields a nonnegative integer as either number kind.
      `Other` carries the text that dump produces for any other value. */
  datatype Id = Null | Text(s: string) | Integer(i: int) | Unsigned(u: nat) | Other(dump: string)

  function Digit(n: nat): char
    requires n < 10
  {
    '0' + n as char
  }

  function Decimal(n: nat): (s: string)
    ensures |s| > 0
  {
    if n < 10 then [Digit(n)] else Decimal(n / 10) + [Digit(n % 10)]
  }

  /** The number that decimal digits stand for. */
  function DecimalValue(s: string): nat {
    if s == "" then 0 else 10 * DecimalValue(s[..|s| - 1]) + if '0' <= s[|s| - 1] <= '9' then s[|s| - 1] as nat - '0' as nat else 0
  }

  /** A number is written in decimal digits, without a leading zero. */
  lemma {:induction false} DecimalIs(n: nat)
    ensures DecimalValue(Decimal(n)) == n && forall i :: 0 <= i < |Decimal(n)| ==> '0' <= Decimal(n)[i] <= '9'
    ensures n > 0 ==> Decimal(n)[0] != '0'
  {
    var s := Decimal(n);
    if n >= 10 {
      DecimalIs(n / 10);
      assert s[..|s| - 1] == Decimal(n / 10);
    } else {
      assert s[..0] == "";
    }
  }

  /** std::to_string of a signed number. */
  function Signed(i: int): string {
    if i >= 0 then Decimal(i) else "-" + Decimal(-i)
  }

  function Key(id: Id): string {
    match id
    case Null => "n:"
    case Text(s) => "s:" + s
    case Integer(i) => if i >= 0 then "j:" + Decimal(i) else "i:" + Signed(i)
    case Unsigned(u) => "j:" + Decimal(u)
    case Other(dump) => "x:" + dump
  }

  /** Two ids are the same request: equal values, however the number was represented. */
  predicate SameId(a: Id, b: Id) {
    match (a, b)
    case (Integer(i), Unsigned(u)) => i == u
    case (Unsigned(u), Integer(i)) => i == u
    case _ => a == b
  }

  lemma {:induction false} DecimalInjective(m: nat, n: nat)
    requires Decimal(m) == Decimal(n)
    ensures m == n
  {
    DecimalIs(m);
    DecimalIs(n);
  }

  lemma PrefixInjective(p: string, s: string, t: string)
    requires p + s == p + t
    ensures s == t
  {
    assert s == (p + s)[|p|..];
    assert t == (p + t)[|p|..];
  }

  /** Keys collide exactly for ids that are the same request. */
  lemma KeyIdentifies(a: Id, b: Id)
    ensures Key(a) == Key(b) <==> SameId(a, b)
  {
    if Key(a) == Key(b) {
      assert Key(a)[0] == Key(b)[0];
      match a
      case Null =>
      case Text(s) => PrefixInjective("s:", s, b.s);
      case Other(dump) => PrefixInjective("x:", dump, b.dump);
      case Unsigned(u) => NumberKey(u, b);
      case Integer(i) =>
        if i >= 0 {
          NumberKey(i, b);
        } else {
          PrefixInjective("i:", Signed(i), Signed(b.i));
          PrefixInjective("-", Decimal(-i), Decimal(-b.i));
          DecimalInjective(-i, -b.i);
        }
    }
  }

  lemma NumberKey(n: nat, b: Id)
    requires Key(b) == "j:" + Decimal(n)
    ensures b == Integer(n) || b == Unsigned(n)
  {
    assert Key(b)[0] == 'j';
    if b.Unsigned? {
      PrefixInjective("j:", Decimal(b.u), Decimal(n));
      DecimalInjective(b.u, n);
    } else {
      PrefixInjective("j:", Decimal(b.i), Decimal(n));
      DecimalInjective(b.i, n);
    }
  }
}
