/** The names `TcpServer::newConnection` gives: ipPort_ + "-" + std::to_string(nextConnIdx_). */
module Naming {

  const DIGITS := "0123456789"

  function ToString(n: nat): (s: string)
    ensures s != []
  {
    if n < 10 then [DIGITS[n]] else ToString(n / 10) + [DIGITS[n % 10]]
  }

  function ConnectionName(ipPort: string, index: nat): string {
    ipPort + "-" + ToString(index)
  }

  lemma DigitsDiffer(a: nat, b: nat)
    requires a < 10 && b < 10 && DIGITS[a] == DIGITS[b]
    ensures a == b
  {
  }

  lemma LastDigit(n: nat)
    ensures var s := ToString(n); s[|s| - 1] == DIGITS[n % 10]
    ensures |ToString(n)| == 1 <==> n < 10
    ensures n >= 10 ==> ToString(n)[..|ToString(n)| - 1] == ToString(n / 10)
  {
  }

  lemma {:induction false} ToStringInjective(a: nat, b: nat)
    requires ToString(a) == ToString(b)
    ensures a == b
  {
    LastDigit(a);
    LastDigit(b);
    DigitsDiffer(a % 10, b % 10);
    if a >= 10 {
      ToStringInjective(a / 10, b / 10);
    }
  }

  /** Connections with different indices never share a name, whatever the address of the server. */
  lemma NamesDiffer(ipPort: string, a: nat, b: nat)
    requires ConnectionName(ipPort, a) == ConnectionName(ipPort, b)
    ensures a == b
  {
    var prefix := ipPort + "-";
    assert ConnectionName(ipPort, a)[|prefix|..] == ToString(a);
    assert ConnectionName(ipPort, b)[|prefix|..] == ToString(b);
    ToStringInjective(a, b);
  }

  /** A name given to one of the connections before the one with index `next`. */
  ghost predicate Issued(ipPort: string, next: nat, name: string) {
    exists k :: 0 <= k < next && name == ConnectionName(ipPort, k)
  }

  lemma IssuedStays(ipPort: string, next: nat, name: string)
    requires Issued(ipPort, next, name)
    ensures Issued(ipPort, next + 1, name)
  {
  }

  /** The next name was never given before. */
  lemma NextNameIsNew(ipPort: string, next: nat, names: set<string>)
    requires forall n :: n in names ==> Issued(ipPort, next, n)
    ensures ConnectionName(ipPort, next) !in names
  {
    var name := ConnectionName(ipPort, next);
    if name in names {
      assert Issued(ipPort, next, name);
      var k :| 0 <= k < next && name == ConnectionName(ipPort, k);
      NamesDiffer(ipPort, k, next);
    }
  }
}
