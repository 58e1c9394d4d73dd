/** Chain names of the service ruleset, and which of them can coincide. */
module NftNames {
  type Name = string

  function Digits(n: nat): (s: string)
    ensures s != []
  {
    if n < 10 then [('0' as int + n) as char] else Digits(n / 10) + [('0' as int + n % 10) as char]
  }

  function Decimal(n: int): string {
    if n < 0 then "-" + Digits(-n) else Digits(n)
  }

  function LowerChar(c: char): char {
    if 'A' <= c <= 'Z' then (c as int + 32) as char else c
  }

  function Lower(s: string): (r: string)
    ensures |r| == |s|
  {
    seq(|s|, i requires 0 <= i < |s| => LowerChar(s[i]))
  }

  function ServiceChainName(namespace: string, name: string, port: int, protocol: string): Name {
    "svc-" + (namespace + "-" + name) + "-" + protocol + "-" + Decimal(port)
  }

  function MarkChainName(serviceChain: Name): Name {
    "mark-" + serviceChain
  }

  function EndpointChainName(serviceChain: Name, idx: nat): Name {
    "ep-" + serviceChain + "-" + Digits(idx)
  }

  datatype Kind = BaseChain | ServiceChain | MarkChain | EndpointChain

  function KindOf(name: Name): Kind {
    if "svc-" <= name then ServiceChain
    else if "mark-" <= name then MarkChain
    else if "ep-" <= name then EndpointChain
    else BaseChain
  }

  lemma ServiceKind(namespace: string, name: string, port: int, protocol: string)
    ensures KindOf(ServiceChainName(namespace, name, port, protocol)) == ServiceChain
  {
  }

  lemma MarkKind(c: Name)
    ensures KindOf(MarkChainName(c)) == MarkChain
  {
    assert MarkChainName(c)[0] == 'm';
  }

  lemma EndpointKind(c: Name, i: nat)
    ensures KindOf(EndpointChainName(c, i)) == EndpointChain
  {
    assert EndpointChainName(c, i)[0] == 'e';
  }

  lemma MarkInjective(c: Name, d: Name)
    requires MarkChainName(c) == MarkChainName(d)
    ensures c == d
  {
    assert c == MarkChainName(c)[5..];
    assert d == MarkChainName(d)[5..];
  }

  lemma {:induction false} DigitsAreDigits(n: nat)
    ensures forall i :: 0 <= i < |Digits(n)| ==> '0' <= Digits(n)[i] <= '9'
  {
    if n >= 10 {
      DigitsAreDigits(n / 10);
    }
  }

  lemma {:induction false} DigitsInjective(a: nat, b: nat)
    requires Digits(a) == Digits(b)
    ensures a == b
  {
    var da, db := Digits(a), Digits(b);
    assert da[|da| - 1] == ('0' as int + a % 10) as char;
    assert db[|db| - 1] == ('0' as int + b % 10) as char;
    if a >= 10 && b >= 10 {
      assert Digits(a / 10) == da[..|da| - 1] && Digits(b / 10) == db[..|db| - 1];
      DigitsInjective(a / 10, b / 10);
    }
  }

  predicate DashFree(s: string) { '-' !in s }

  lemma DecimalParts(n: nat)
    ensures DashFree(Digits(n)) && Decimal(n) == Digits(n)
  {
    DigitsAreDigits(n);
  }

  /** What follows the last dash can be read back. */
  lemma LastDash(x: string, d: string, y: string, e: string)
    requires x + "-" + d == y + "-" + e && DashFree(d) && DashFree(e)
    ensures x == y && d == e
  {
    var n := x + "-" + d;
    assert n[|x|] == '-' && n[|y|] == '-';
    assert x == n[..|x|] && y == n[..|y|] && d == n[|x| + 1..] && e == n[|y| + 1..];
  }

  /** And so can what precedes the first one. */
  lemma FirstDash(a: string, x: string, b: string, y: string)
    requires a + "-" + x == b + "-" + y && DashFree(a) && DashFree(b)
    ensures a == b && x == y
  {
    var n := a + "-" + x;
    assert n[|a|] == '-' && n[|b|] == '-';
    assert a == n[..|a|] && b == n[..|b|] && x == n[|a| + 1..] && y == n[|b| + 1..];
  }

  lemma EndpointInjective(c: Name, i: nat, d: Name, j: nat)
    requires EndpointChainName(c, i) == EndpointChainName(d, j)
    ensures c == d && i == j
  {
    DecimalParts(i);
    DecimalParts(j);
    LastDash("ep-" + c, Digits(i), "ep-" + d, Digits(j));
    assert c == ("ep-" + c)[3..] && d == ("ep-" + d)[3..];
    DigitsInjective(i, j);
  }

  /** Everything before the number of the port, with its sign. */
  function Head(x: string, protocol: string, port: int): string {
    "svc-" + x + "-" + protocol + if port < 0 then "-" else ""
  }

  function Abs(n: int): nat { if n < 0 then -n else n }

  lemma NameHead(namespace: string, name: string, port: int, protocol: string)
    ensures ServiceChainName(namespace, name, port, protocol)
         == Head(namespace + "-" + name, protocol, port) + "-" + Digits(Abs(port))
    ensures DashFree(Digits(Abs(port)))
  {
    DigitsAreDigits(Abs(port));
  }

  /** The parts that different services cannot mix up: port and protocol, when protocols hold no dash and are
      not empty. */
  lemma ProtocolInjective(namespace: string, name: string, port: int, protocol: string,
                          namespace': string, name': string, port': int, protocol': string)
    requires ServiceChainName(namespace, name, port, protocol) == ServiceChainName(namespace', name', port', protocol')
    requires DashFree(protocol) && DashFree(protocol') && protocol != "" && protocol' != ""
    ensures port == port' && protocol == protocol' && namespace + "-" + name == namespace' + "-" + name'
  {
    var x, y := namespace + "-" + name, namespace' + "-" + name';
    NameHead(namespace, name, port, protocol);
    NameHead(namespace', name', port', protocol');
    LastDash(Head(x, protocol, port), Digits(Abs(port)), Head(y, protocol', port'), Digits(Abs(port')));
    DigitsInjective(Abs(port), Abs(port'));
    HeadSign(x, protocol, port);
    HeadSign(y, protocol', port');
    assert (port < 0) == (port' < 0) by {
      if port < 0 && port' >= 0 {
        LastDash("svc-" + x + "-" + protocol, "", "svc-" + y, protocol');
      } else if port >= 0 && port' < 0 {
        LastDash("svc-" + x, protocol, "svc-" + y + "-" + protocol', "");
      }
    }
    LastDash("svc-" + x, protocol, "svc-" + y, protocol');
    assert x == ("svc-" + x)[4..] && y == ("svc-" + y)[4..];
  }

  lemma HeadSign(x: string, protocol: string, port: int)
    ensures var h, body := Head(x, protocol, port), "svc-" + x + "-" + protocol;
            if port < 0 then h == body + "-" + "" && body == h[..|h| - 1] else h == body
  {
  }

  /** Within one service the name tells port and protocol apart, when the ports are not negative or the
      protocols hold no dash and are not empty. */
  lemma PortInjective(namespace: string, name: string, port: int, protocol: string, port': int, protocol': string)
    requires ServiceChainName(namespace, name, port, protocol) == ServiceChainName(namespace, name, port', protocol')
    requires (port >= 0 && port' >= 0) || (DashFree(protocol) && DashFree(protocol') && protocol != "" && protocol' != "")
    ensures port == port' && protocol == protocol'
  {
    if port >= 0 && port' >= 0 {
      var head := "svc-" + (namespace + "-" + name) + "-";
      NameHead(namespace, name, port, protocol);
      NameHead(namespace, name, port', protocol');
      LastDash(head + protocol, Digits(port), head + protocol', Digits(port'));
      assert protocol == (head + protocol)[|head|..] && protocol' == (head + protocol')[|head|..];
      DigitsInjective(port, port');
    } else {
      ProtocolInjective(namespace, name, port, protocol, namespace, name, port', protocol');
    }
  }

  /** Otherwise two ports of a service can meet. */
  lemma PortsCanMeet(namespace: string, name: string)
    ensures ServiceChainName(namespace, name, 5, "tcp-") == ServiceChainName(namespace, name, -5, "tcp")
  {
    var head := "svc-" + (namespace + "-" + name) + "-";
    assert Digits(5) == "5";
    assert head + "tcp-" + "-" + "5" == head + "tcp" + "-" + ("-" + "5");
  }

  /** Across services it tells all four parts apart when namespaces hold no dash either. */
  lemma ServiceInjective(namespace: string, name: string, port: int, protocol: string,
                         namespace': string, name': string, port': int, protocol': string)
    requires ServiceChainName(namespace, name, port, protocol) == ServiceChainName(namespace', name', port', protocol')
    requires DashFree(namespace) && DashFree(namespace')
    requires DashFree(protocol) && DashFree(protocol') && protocol != "" && protocol' != ""
    ensures namespace == namespace' && name == name' && port == port' && protocol == protocol'
  {
    ProtocolInjective(namespace, name, port, protocol, namespace', name', port', protocol');
    FirstDash(namespace, name, namespace', name');
  }

  /** Otherwise two services can meet. */
  lemma NamesCanMeet(port: int, protocol: string)
    ensures ServiceChainName("a-b", "c", port, protocol) == ServiceChainName("a", "b-c", port, protocol)
  {
    assert "a-b" + "-" + "c" == "a" + "-" + "b-c";
  }
}
