/** Subdomain rules, and the three kinds of key tunnels are registered under. */
module Names {
  predicate AlphaNum(c: char) {
    'a' <= c <= 'z' || 'A' <= c <= 'Z' || '0' <= c <= '9'
  }

  /** A DNS label as in section 2.1 of RFC 1123. */
  predicate ValidName(s: string) {
    && 1 <= |s| <= 63
    && AlphaNum(s[0]) && AlphaNum(s[|s| - 1])
    && forall i | 0 <= i < |s| :: AlphaNum(s[i]) || s[i] == '-'
  }

  method IsValidSubdomain(s: string) returns (ok: bool)
    ensures ok == ValidName(s)
  {
    if |s| == 0 || |s| > 63 {
      return false;
    }
    if !AlphaNum(s[0]) || !AlphaNum(s[|s| - 1]) {
      return false;
    }
    for i := 0 to |s|
      invariant forall j | 0 <= j < i :: AlphaNum(s[j]) || s[j] == '-'
    {
      if !AlphaNum(s[i]) && s[i] != '-' {
        return false;
      }
    }
    return true;
  }

  const RESERVED: set<string> := {
    "www", "api", "admin", "dashboard", "app", "mail", "smtp", "ftp", "ns1", "ns2",
    "status", "wirerift", "localhost", "root", "support", "help", "login", "auth"
  }

  /** Lower case. Two letters outside ASCII, the dotted capital I and the Kelvin sign, become ASCII;
      the others do not, and a name that holds one is refused with or without its lower case. */
  function LowerChar(c: char): char {
    if 'A' <= c <= 'Z' then (c as int + 32) as char
    else if c == '\U{130}' then 'i'
    else if c == '\U{212A}' then 'k'
    else c
  }

  function Lower(s: string): string {
    seq(|s|, i requires 0 <= i < |s| => LowerChar(s[i]))
  }

  function Digit(n: nat): char
    requires n < 10
  {
    ('0' as int + n) as char
  }

  /** Decimal digits, most significant first. */
  function Itoa(n: nat): string {
    if n < 10 then [Digit(n)] else Itoa(n / 10) + [Digit(n % 10)]
  }

  lemma {:induction false} ItoaInjective(a: nat, b: nat)
    requires Itoa(a) == Itoa(b)
    ensures a == b
  {
    assert Itoa(a)[|Itoa(a)| - 1] == Digit(a % 10);
    assert Itoa(b)[|Itoa(b)| - 1] == Digit(b % 10);
    if a >= 10 && b >= 10 {
      assert Itoa(a)[..|Itoa(a)| - 1] == Itoa(a / 10);
      assert Itoa(b)[..|Itoa(b)| - 1] == Itoa(b / 10);
      ItoaInjective(a / 10, b / 10);
    } else {
      ItoaLength(a);
      ItoaLength(b);
    }
  }

  lemma {:induction false} ItoaLength(n: nat)
    ensures |Itoa(n)| >= 1 && (|Itoa(n)| == 1 <==> n < 10)
  {
    if n >= 10 {
      ItoaLength(n / 10);
    }
  }

  /** The number a string of decimal digits stands for. */
  function Value(s: string): int {
    if s == "" then 0 else 10 * Value(s[..|s| - 1]) + (s[|s| - 1] as int - 48)
  }

  /** The digits are those of the number, without leading zeros. */
  lemma {:induction false} ItoaIsDecimal(n: nat)
    ensures Value(Itoa(n)) == n && Itoa(n) != "" && (Itoa(n)[0] == '0' ==> n == 0)
    ensures forall i | 0 <= i < |Itoa(n)| :: 48 <= Itoa(n)[i] as int <= 57
  {
    if n >= 10 {
      ItoaIsDecimal(n / 10);
      assert Itoa(n)[..|Itoa(n)| - 1] == Itoa(n / 10);
    } else {
      assert Itoa(n)[..0] == "";
    }
  }

  function TcpKey(port: nat): string {
    "tcp:" + Itoa(port)
  }

  function DomainKey(domain: string): string {
    "domain:" + domain
  }

  /** Keys of different kinds differ, and each kind tells its names apart. */
  lemma KeysNeverCollide(name: string, p: nat, q: nat, d: string, e: string)
    requires ValidName(name)
    ensures TcpKey(p) != name && DomainKey(d) != name && TcpKey(p) != DomainKey(d)
    ensures TcpKey(p) == TcpKey(q) ==> p == q
    ensures DomainKey(d) == DomainKey(e) ==> d == e
  {
    assert TcpKey(p)[3] == ':' && DomainKey(d)[6] == ':';
    assert TcpKey(p)[0] == 't' && DomainKey(d)[0] == 'd';
    assert Itoa(p) == TcpKey(p)[4..] && Itoa(q) == TcpKey(q)[4..];
    assert d == DomainKey(d)[7..] && e == DomainKey(e)[7..];
    if TcpKey(p) == TcpKey(q) {
      ItoaInjective(p, q);
    }
  }
}
