/** Protocols and addresses as they are written: which spellings count. */
module NftSpelling {
  import opened Wrappers
  import opened NftNames
  import opened NftModel
  import opened NftCompiler
  import opened NftDiscovery
  import opened NftMaps

  const UPPER := "ABCDEFGHIJKLMNOPQRSTUVWXYZ"
  const LOWER := "abcdefghijklmnopqrstuvwxyz"

  /** A letter and its capital. */
  predicate CapitalOf(u: char, c: char) {
    exists k :: 0 <= k < 26 && u == UPPER[k] && c == LOWER[k]
  }

  /** The word, each letter small or capital. */
  predicate Spells(s: string, word: string) {
    |s| == |word| && forall i :: 0 <= i < |s| ==> s[i] == word[i] || CapitalOf(s[i], word[i])
  }

  lemma Alphabets(k: nat)
    requires k < 26
    ensures UPPER[k] as int == 'A' as int + k && LOWER[k] as int == 'a' as int + k
  {
  }

  lemma CapitalIsLower(u: char, c: char)
    requires CapitalOf(u, c)
    ensures 'A' <= u <= 'Z' && LowerChar(u) == c
  {
    var k :| 0 <= k < 26 && u == UPPER[k] && c == LOWER[k];
    Alphabets(k);
  }

  lemma LowerIsCapital(u: char)
    requires 'A' <= u <= 'Z'
    ensures CapitalOf(u, LowerChar(u))
  {
    var k := u as int - 'A' as int;
    Alphabets(k);
    assert u == UPPER[k] && LowerChar(u) == LOWER[k];
  }

  lemma LowerCharExactly(u: char, c: char)
    requires !('A' <= c <= 'Z')
    ensures LowerChar(u) == c <==> u == c || CapitalOf(u, c)
  {
    hide CapitalOf;
    if CapitalOf(u, c) {
      CapitalIsLower(u, c);
    }
    if 'A' <= u <= 'Z' {
      LowerIsCapital(u);
    }
  }

  /** Lower-casing gives a small-letter word exactly for its spellings. */
  lemma LowerExactly(s: string, word: string)
    requires forall i :: 0 <= i < |word| ==> !('A' <= word[i] <= 'Z')
    ensures Lower(s) == word <==> Spells(s, word)
  {
    hide LowerChar, CapitalOf;
    if |s| == |word| {
      forall i | 0 <= i < |s|
        ensures Lower(s)[i] == word[i] <==> s[i] == word[i] || CapitalOf(s[i], word[i])
      {
        LowerCharExactly(s[i], word[i]);
      }
      if Spells(s, word) {
        assert forall i :: 0 <= i < |s| ==> Lower(s)[i] == word[i];
      }
    }
  }

  /** Ports are TCP or UDP exactly when their protocols are written so, in capitals or not. */
  lemma TcpOrUdpExactly(pairs: seq<Pair>)
    ensures TcpOrUdp(pairs) <==>
            forall i :: 0 <= i < |pairs| ==> Spells(pairs[i].1.protocol, "tcp") || Spells(pairs[i].1.protocol, "udp")
  {
    hide Lower, Spells;
    forall i | 0 <= i < |pairs|
      ensures Proto(pairs[i].1) == "tcp" || Proto(pairs[i].1) == "udp"
         <==> Spells(pairs[i].1.protocol, "tcp") || Spells(pairs[i].1.protocol, "udp")
    {
      LowerExactly(pairs[i].1.protocol, "tcp");
      LowerExactly(pairs[i].1.protocol, "udp");
    }
  }

  lemma CapitalTcp()
    ensures Spells("TCP", "tcp") && Spells("UDP", "udp") && Spells("Tcp", "tcp") && !Spells("SCTP", "tcp")
  {
    assert CapitalOf('T', 't') by { assert UPPER[19] == 'T' && LOWER[19] == 't'; }
    assert CapitalOf('C', 'c') by { assert UPPER[2] == 'C' && LOWER[2] == 'c'; }
    assert CapitalOf('P', 'p') by { assert UPPER[15] == 'P' && LOWER[15] == 'p'; }
    assert CapitalOf('U', 'u') by { assert UPPER[20] == 'U' && LOWER[20] == 'u'; }
    assert CapitalOf('D', 'd') by { assert UPPER[3] == 'D' && LOWER[3] == 'd'; }
  }

  /** A service has a cluster address unless it has none, an empty one, or the word none in any spelling. */
  lemma ClusterIpExactly(svc: Service)
    ensures ValidClusterIp(svc) ==
            if svc.clusterIp.Some? && svc.clusterIp.value != "" && !Spells(svc.clusterIp.value, "none") then svc.clusterIp else None
  {
    hide Lower, Spells;
    if svc.clusterIp.Some? {
      LowerExactly(svc.clusterIp.value, "none");
    }
  }

  /** No entry of a snapshot has an empty address or the word none; each has the address of one of its services. */
  lemma EntriesHaveAddresses(services: seq<Service>, e: Element)
    requires e in ClusterSet(services)
    ensures e.key.ClusterKey? && e.key.ip != "" && !Spells(e.key.ip, "none")
    ensures exists i :: 0 <= i < |Pairs(services)| && Pairs(services)[i].0.clusterIp == Some(e.key.ip)
  {
    hide Pairs, ClusterOrder, NodeOrder, ClusterElements, NodeElements, Spells, SeenIps, Lower, ValidClusterIp;
    SnapshotSets(services);
    var i := ClusterElementSource(Pairs(services), e);
    ClusterIpExactly(Pairs(services)[i].0);
  }
}
