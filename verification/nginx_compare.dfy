/** `compareDomains` (libs/nginx-utils.ts): which managed domains have a
    server block in the nginx configuration, which exist only in the manager
    and which server blocks exist only in nginx.

    As written, the source removes a matched server from its copy of the
    server list by the index the server had in the ORIGINAL list, while the
    copy shrinks with every removal; after the first match the wrong server
    (or none) is removed. `CompareDomains` models the code as written and
    `SpliceShiftCounterexample` exhibits the discrepancy;
    `CompareDomainsFixed` removes exactly the matched servers and
    `FixedPartition` proves that it does. */
module NginxCompare {
  import opened Wrappers
  import opened Seqs
  import opened Domains
  import opened NginxModel

  datatype Pair = Pair(domain: Domain, server: ServerBlock)

  datatype Comparison = Comparison(
    inBoth: seq<Pair>,
    onlyInManager: seq<Domain>,
    onlyInNginx: seq<ServerBlock>)

  /** `servers.findIndex(s => s.serverName.includes(name))`: the first server
      listing `name` among its server names, or -1. */
  function MatchIndex(servers: seq<ServerBlock>, name: string): (k: int)
    ensures -1 <= k < |servers|
    ensures k >= 0 ==> name in servers[k].serverName
    ensures forall j :: 0 <= j < |servers| && (k < 0 || j < k) ==> name !in servers[j].serverName
  {
    if servers == [] then -1
    else if name in servers[0].serverName then 0
    else
      var k := MatchIndex(servers[1..], name);
      if k < 0 then -1 else k + 1
  }

  /** Whether a domain has a server block at all. */
  function HasMatch(servers: seq<ServerBlock>): Domain -> bool {
    (d: Domain) => MatchIndex(servers, d.name) >= 0
  }

  /** `ds.filter(d => d.id !== id)`. */
  function WithoutId(ds: seq<Domain>, id: int): (r: seq<Domain>)
    ensures forall i :: 0 <= i < |r| ==> r[i].id != id
  {
    if ds == [] then []
    else (if ds[0].id != id then [ds[0]] else []) + WithoutId(ds[1..], id)
  }

  /** The domains of `ds` whose id is not in `ids`, in order. */
  function WithoutIds(ds: seq<Domain>, ids: set<int>): (r: seq<Domain>)
    ensures forall i :: 0 <= i < |r| ==> r[i].id !in ids
  {
    if ds == [] then []
    else (if ds[0].id !in ids then [ds[0]] else []) + WithoutIds(ds[1..], ids)
  }

  /** One round of the `forEach`: when the domain has a server block, record
      the pair, drop every domain with its id from the managed-only list, and
      splice the managed-only copy of the servers at the index found in the
      original list. */
  function CompareStep(c: Comparison, servers: seq<ServerBlock>, d: Domain): Comparison {
    var k := MatchIndex(servers, d.name);
    if k < 0 then c
    else Comparison(
      c.inBoth + [Pair(d, servers[k])],
      WithoutId(c.onlyInManager, d.id),
      RemoveAt(c.onlyInNginx, k))
  }

  /** The result after the first `n` managed domains have been visited. */
  function CompareFrom(managed: seq<Domain>, servers: seq<ServerBlock>, n: nat): Comparison
    requires n <= |managed|
  {
    if n == 0 then Comparison([], managed, servers)
    else CompareStep(CompareFrom(managed, servers, n - 1), servers, managed[n - 1])
  }

  /** The ids of the domains among the first `n` that have a server block. */
  function MatchedIds(managed: seq<Domain>, servers: seq<ServerBlock>, n: nat): set<int>
    requires n <= |managed|
  {
    if n == 0 then {}
    else
      var d := managed[n - 1];
      MatchedIds(managed, servers, n - 1) + (if MatchIndex(servers, d.name) >= 0 then {d.id} else {})
  }

  /** The indices of the servers that are the first match of one of the
      first `n` domains. */
  function PairedIndices(managed: seq<Domain>, servers: seq<ServerBlock>, n: nat): (p: set<int>)
    requires n <= |managed|
    ensures forall j :: j in p <==> exists i :: 0 <= i < n && MatchIndex(servers, managed[i].name) == j && j >= 0
  {
    if n == 0 then {}
    else
      var k := MatchIndex(servers, managed[n - 1].name);
      PairedIndices(managed, servers, n - 1) + (if k >= 0 then {k} else {})
  }

  /** `compareDomains` as written. */
  method CompareDomains(managed: seq<Domain>, servers: seq<ServerBlock>) returns (r: Comparison)
    ensures r == CompareFrom(managed, servers, |managed|)
  {
    var inBoth: seq<Pair> := [];
    var onlyInManager := managed;
    var onlyInNginx := servers;
    for i := 0 to |managed|
      invariant Comparison(inBoth, onlyInManager, onlyInNginx) == CompareFrom(managed, servers, i)
    {
      var domain := managed[i];
      var serverIndex := MatchIndex(servers, domain.name);
      if serverIndex != -1 {
        inBoth := inBoth + [Pair(domain, servers[serverIndex])];
        onlyInManager := WithoutId(onlyInManager, domain.id);
        onlyInNginx := RemoveAt(onlyInNginx, serverIndex);
      }
    }
    r := Comparison(inBoth, onlyInManager, onlyInNginx);
  }

  /** `pairs` pairs each domain of `m`, in order, with the first server
      block listing its name. */
  predicate PairsFor(pairs: seq<Pair>, m: seq<Domain>, servers: seq<ServerBlock>) {
    && |pairs| == |m|
    && forall i :: 0 <= i < |m| ==>
         && pairs[i].domain == m[i]
         && 0 <= MatchIndex(servers, m[i].name)
         && pairs[i].server == servers[MatchIndex(servers, m[i].name)]
  }

  /** `inBoth` pairs each domain that has a server block, in the order of the
      managed list, with the first server block listing its name. */
  lemma {:induction false} InBothSpec(managed: seq<Domain>, servers: seq<ServerBlock>, n: nat)
    requires n <= |managed|
    ensures PairsFor(CompareFrom(managed, servers, n).inBoth, Filter(managed[..n], HasMatch(servers)), servers)
  {
    if n > 0 {
      InBothSpec(managed, servers, n - 1);
      var d := managed[n - 1];
      var prev := CompareFrom(managed, servers, n - 1).inBoth;
      assert managed[..n] == managed[..n - 1] + [d];
      FilterSnoc(managed[..n - 1], d, HasMatch(servers));
      var k := MatchIndex(servers, d.name);
      if k >= 0 {
        assert CompareFrom(managed, servers, n).inBoth == prev + [Pair(d, servers[k])];
        PairsSnoc(prev, Filter(managed[..n - 1], HasMatch(servers)), servers, d);
      } else {
        assert CompareFrom(managed, servers, n).inBoth == prev;
      }
    }
  }

  lemma PairsSnoc(pairs: seq<Pair>, m: seq<Domain>, servers: seq<ServerBlock>, d: Domain)
    requires PairsFor(pairs, m, servers)
    requires MatchIndex(servers, d.name) >= 0
    ensures PairsFor(pairs + [Pair(d, servers[MatchIndex(servers, d.name)])], m + [d], servers)
  {
    var p := pairs + [Pair(d, servers[MatchIndex(servers, d.name)])];
    forall i | 0 <= i < |m| + 1
      ensures p[i].domain == (m + [d])[i]
    {
      if i < |m| {
        assert p[i] == pairs[i];
      }
    }
  }

  /** Removing one id after a set of ids is removing both. */
  lemma {:induction false} WithoutIdStep(ds: seq<Domain>, ids: set<int>, id: int)
    ensures WithoutId(WithoutIds(ds, ids), id) == WithoutIds(ds, ids + {id})
  {
    if ds != [] {
      WithoutIdStep(ds[1..], ids, id);
      var head := if ds[0].id !in ids then [ds[0]] else [];
      var w := WithoutIds(ds[1..], ids);
      assert WithoutIds(ds, ids) == head + w;
      if ds[0].id !in ids {
        assert (head + w)[1..] == w;
      } else {
        assert head + w == w;
      }
    }
  }

  /** `onlyInManager` is the managed list without every domain that shares
      its id with a domain that has a server block. */
  lemma {:induction false} OnlyInManagerSpec(managed: seq<Domain>, servers: seq<ServerBlock>, n: nat)
    requires n <= |managed|
    ensures CompareFrom(managed, servers, n).onlyInManager == WithoutIds(managed, MatchedIds(managed, servers, n))
  {
    if n == 0 {
      WithoutNoIds(managed);
    } else {
      OnlyInManagerSpec(managed, servers, n - 1);
      OnlyInManagerStep(managed, servers, n);
    }
  }

  lemma OnlyInManagerStep(managed: seq<Domain>, servers: seq<ServerBlock>, n: nat)
    requires 0 < n <= |managed|
    requires CompareFrom(managed, servers, n - 1).onlyInManager
      == WithoutIds(managed, MatchedIds(managed, servers, n - 1))
    ensures CompareFrom(managed, servers, n).onlyInManager
      == WithoutIds(managed, MatchedIds(managed, servers, n))
  {
    var d := managed[n - 1];
    var ids := MatchedIds(managed, servers, n - 1);
    ManagerField(managed, servers, n);
    if MatchIndex(servers, d.name) >= 0 {
      assert MatchedIds(managed, servers, n) == ids + {d.id};
      WithoutIdStep(managed, ids, d.id);
    } else {
      assert MatchedIds(managed, servers, n) == ids;
    }
  }

  /** One visit changes the managed-only list only for a domain with a
      server block. */
  lemma ManagerField(managed: seq<Domain>, servers: seq<ServerBlock>, n: nat)
    requires 0 < n <= |managed|
    ensures var d := managed[n - 1];
      var prev := CompareFrom(managed, servers, n - 1).onlyInManager;
      CompareFrom(managed, servers, n).onlyInManager
        == if MatchIndex(servers, d.name) >= 0 then WithoutId(prev, d.id) else prev
  {
  }

  lemma {:induction false} WithoutNoIds(ds: seq<Domain>)
    ensures WithoutIds(ds, {}) == ds
  {
    if ds != [] {
      WithoutNoIds(ds[1..]);
      assert ds == [ds[0]] + ds[1..];
    }
  }

  /** What `WithoutIds` keeps: a subsequence holding exactly the domains
      whose id is not removed. */
  lemma WithoutIdsSpec(ds: seq<Domain>, ids: set<int>)
    ensures IsSubseq(WithoutIds(ds, ids), ds)
    ensures forall d :: d in WithoutIds(ds, ids) <==> d in ds && d.id !in ids
  {
    WithoutIdsSubseq(ds, ids);
    WithoutIdsMembers(ds, ids);
  }

  lemma {:induction false} WithoutIdsSubseq(ds: seq<Domain>, ids: set<int>)
    ensures IsSubseq(WithoutIds(ds, ids), ds)
  {
    if ds != [] {
      WithoutIdsSubseq(ds[1..], ids);
      assert ds == [ds[0]] + ds[1..];
      var w := WithoutIds(ds[1..], ids);
      SubseqPrepend(w, ds[1..], ds[0]);
      if ds[0].id !in ids {
        assert WithoutIds(ds, ids) == [ds[0]] + w;
      } else {
        assert WithoutIds(ds, ids) == w;
      }
    }
  }

  lemma {:induction false} WithoutIdsMembers(ds: seq<Domain>, ids: set<int>)
    ensures forall d :: d in WithoutIds(ds, ids) <==> d in ds && d.id !in ids
  {
    if ds != [] {
      WithoutIdsMembers(ds[1..], ids);
      assert ds == [ds[0]] + ds[1..];
      var w := WithoutIds(ds[1..], ids);
      if ds[0].id !in ids {
        assert WithoutIds(ds, ids) == [ds[0]] + w;
      } else {
        assert WithoutIds(ds, ids) == w;
      }
    }
  }

  /** An id is removed exactly when one of the visited domains carrying it
      has a server block. */
  lemma {:induction false} MatchedIdsSpec(managed: seq<Domain>, servers: seq<ServerBlock>, n: nat, id: int)
    requires n <= |managed|
    ensures id in MatchedIds(managed, servers, n) <==>
      exists i :: 0 <= i < n && managed[i].id == id && MatchIndex(servers, managed[i].name) >= 0
  {
    if n > 0 {
      MatchedIdsSpec(managed, servers, n - 1, id);
    }
  }

  /** As written, every server `onlyInNginx` keeps comes from the nginx list,
      in order. */
  lemma {:induction false} OnlyInNginxSubseq(managed: seq<Domain>, servers: seq<ServerBlock>, n: nat)
    requires n <= |managed|
    ensures IsSubseq(CompareFrom(managed, servers, n).onlyInNginx, servers)
  {
    if n == 0 {
      SubseqRefl(servers);
    } else {
      OnlyInNginxSubseq(managed, servers, n - 1);
      var prev := CompareFrom(managed, servers, n - 1).onlyInNginx;
      var k := MatchIndex(servers, managed[n - 1].name);
      if k >= 0 {
        RemoveAtIsSubseq(prev, k);
        SubseqTrans(RemoveAt(prev, k), prev, servers);
      }
    }
  }

  /** The indices below `n` that are not in `p`, ascending. */
  function KeptIndices(p: set<int>, n: nat): (r: seq<nat>)
    ensures forall i :: 0 <= i < |r| ==> r[i] < n && r[i] !in p
    ensures forall j :: 0 <= j < n && j !in p ==> j in r
    ensures forall i, j :: 0 <= i < j < |r| ==> r[i] < r[j]
  {
    if n == 0 then []
    else KeptIndices(p, n - 1) + (if n - 1 in p then [] else [n - 1])
  }

  /** The servers at the given indices, in that order. */
  function ServersAt(servers: seq<ServerBlock>, idx: seq<nat>): (r: seq<ServerBlock>)
    requires forall i :: 0 <= i < |idx| ==> idx[i] < |servers|
    ensures |r| == |idx|
    ensures forall i :: 0 <= i < |idx| ==> r[i] == servers[idx[i]]
  {
    if idx == [] then []
    else ServersAt(servers, idx[..|idx| - 1]) + [servers[idx[|idx| - 1]]]
  }

  /** The comparison the source evidently intends: the same pairs and
      managed-only domains, and as nginx-only servers exactly those that are
      no domain's match, in their original order. */
  function CompareFixed(managed: seq<Domain>, servers: seq<ServerBlock>): Comparison {
    var r := CompareFrom(managed, servers, |managed|);
    var kept := KeptIndices(PairedIndices(managed, servers, |managed|), |servers|);
    r.(onlyInNginx := ServersAt(servers, kept))
  }

  /** The corrected `compareDomains`: it records which server indices were
      matched and keeps the others once all domains are visited. */
  method CompareDomainsFixed(managed: seq<Domain>, servers: seq<ServerBlock>) returns (r: Comparison)
    ensures r == CompareFixed(managed, servers)
  {
    var inBoth: seq<Pair> := [];
    var onlyInManager := managed;
    var paired: set<int> := {};
    for i := 0 to |managed|
      invariant inBoth == CompareFrom(managed, servers, i).inBoth
      invariant onlyInManager == CompareFrom(managed, servers, i).onlyInManager
      invariant paired == PairedIndices(managed, servers, i)
    {
      var domain := managed[i];
      var serverIndex := MatchIndex(servers, domain.name);
      if serverIndex != -1 {
        inBoth := inBoth + [Pair(domain, servers[serverIndex])];
        onlyInManager := WithoutId(onlyInManager, domain.id);
        paired := paired + {serverIndex};
      }
    }
    var onlyInNginx := Unpaired(servers, paired);
    r := Comparison(inBoth, onlyInManager, onlyInNginx);
  }

  /** The servers whose index is not in `paired`, in order. */
  method Unpaired(servers: seq<ServerBlock>, paired: set<int>) returns (kept: seq<ServerBlock>)
    ensures kept == ServersAt(servers, KeptIndices(paired, |servers|))
  {
    kept := [];
    for j := 0 to |servers|
      invariant kept == ServersAt(servers, KeptIndices(paired, j))
    {
      KeptStep(servers, paired, j);
      if j !in paired {
        kept := kept + [servers[j]];
      }
    }
  }

  lemma KeptStep(servers: seq<ServerBlock>, paired: set<int>, j: nat)
    requires j < |servers|
    ensures ServersAt(servers, KeptIndices(paired, j + 1))
      == ServersAt(servers, KeptIndices(paired, j)) + (if j in paired then [] else [servers[j]])
  {
    var before := KeptIndices(paired, j);
    if j !in paired {
      assert KeptIndices(paired, j + 1) == before + [j];
      assert (before + [j])[..|before|] == before;
    }
  }

  /** With the correction every server block is in exactly one place: it is
      listed as nginx-only exactly when it is no managed domain's first
      match, and the nginx-only list keeps the original order. */
  lemma FixedPartition(managed: seq<Domain>, servers: seq<ServerBlock>)
    ensures var r := CompareFixed(managed, servers);
      var kept := KeptIndices(PairedIndices(managed, servers, |managed|), |servers|);
      && r.onlyInNginx == ServersAt(servers, kept)
      && (forall j :: 0 <= j < |servers| ==>
            (j in kept <==> forall i :: 0 <= i < |managed| ==> MatchIndex(servers, managed[i].name) != j))
      && (forall i, j :: 0 <= i < j < |kept| ==> kept[i] < kept[j])
  {
  }

  /** Domains `a.test` and `b.test`, and server blocks for `a.test`,
      `b.test` and `c.test`. */
  const DomainA := Domain(1, "a.test", "127.0.0.1", None, true, None, None, None, None, "", "")
  const DomainB := Domain(2, "b.test", "127.0.0.1", None, true, None, None, None, None, "", "")
  const ServerA := EmptyServer.(serverName := ["a.test"])
  const ServerB := EmptyServer.(serverName := ["b.test"])
  const ServerC := EmptyServer.(serverName := ["c.test"])

  lemma ExampleMatches()
    ensures MatchIndex([ServerA, ServerB, ServerC], DomainA.name) == 0
    ensures MatchIndex([ServerA, ServerB, ServerC], DomainB.name) == 1
  {
    var servers := [ServerA, ServerB, ServerC];
    assert "a.test" in ServerA.serverName;
    assert "b.test" != "a.test";
    assert servers[1..] == [ServerB, ServerC];
    assert MatchIndex(servers[1..], "b.test") == 0;
  }

  /** As written, the nginx-only list ends up holding the `b.test` block,
      which is paired with a domain, and not the `c.test` block, which is
      not. */
  lemma SpliceShiftCounterexample()
    ensures var r := CompareFrom([DomainA, DomainB], [ServerA, ServerB, ServerC], 2);
      && r.inBoth == [Pair(DomainA, ServerA), Pair(DomainB, ServerB)]
      && r.onlyInNginx == [ServerB]
  {
    var servers := [ServerA, ServerB, ServerC];
    var ms := [DomainA, DomainB];
    ExampleMatches();
    assert RemoveAt(servers, 0) == [ServerB, ServerC];
    assert RemoveAt([ServerB, ServerC], 1) == [ServerB];
    var c0 := CompareFrom(ms, servers, 0);
    assert c0 == Comparison([], ms, servers);
    var c1 := CompareFrom(ms, servers, 1);
    assert c1 == CompareStep(c0, servers, DomainA);
    assert c1.inBoth == [Pair(DomainA, ServerA)] && c1.onlyInNginx == [ServerB, ServerC];
    var c2 := CompareFrom(ms, servers, 2);
    assert c2 == CompareStep(c1, servers, DomainB);
  }

  /** With the correction the nginx-only list is exactly the `c.test`
      block. */
  lemma SpliceShiftFixed()
    ensures CompareFixed([DomainA, DomainB], [ServerA, ServerB, ServerC]).onlyInNginx == [ServerC]
  {
    var servers := [ServerA, ServerB, ServerC];
    var ms := [DomainA, DomainB];
    ExampleMatches();
    assert PairedIndices(ms, servers, 1) == {0};
    var p := PairedIndices(ms, servers, 2);
    assert p == {0, 1};
    assert KeptIndices(p, 1) == [] && KeptIndices(p, 2) == [];
    assert KeptIndices(p, 3) == [2];
  }
}
