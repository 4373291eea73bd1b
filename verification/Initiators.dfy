/** How deep the chains of resources that load resources are. */
module Initiators {
  import opened Wrappers
  import opened Sets
  import opened Resources

  const MAX_HOPS := 100

  // ---------------------------------------------------------------- the relation

  function NamedInitiator(r: Resource): Option<string> {
    if r.initiator.Some? && r.initiator.value.url.Some? && r.initiator.value.url.value != "" then r.initiator.value.url
    else None
  }

  /** Who loaded `url`: the last word of the list. */
  function Parent(resources: seq<Resource>, url: string): Option<string> {
    if resources == [] then None else
      var last := resources[|resources| - 1];
      if last.url == url && NamedInitiator(last).Some? then NamedInitiator(last)
      else Parent(resources[..|resources| - 1], url)
  }

  /** Resource `j` is the last under this URL whose initiator has one, `p`. */
  ghost predicate LoadedLast(resources: seq<Resource>, url: string, j: nat, p: string) {
    && j < |resources| && resources[j].url == url
    && resources[j].initiator == Some(Initiator(Some(p))) && p != ""
    && forall i | j < i < |resources| && resources[i].url == url :: Unnamed(resources[i])
  }

  /** Its initiator is unknown, or has no URL, or an empty one. */
  predicate Unnamed(r: Resource) {
    r.initiator == None || r.initiator == Some(Initiator(None)) || r.initiator == Some(Initiator(Some("")))
  }

  lemma UnnamedExactly(r: Resource)
    ensures Unnamed(r) <==> NamedInitiator(r).None?
    ensures forall p :: NamedInitiator(r) == Some(p) <==> r.initiator == Some(Initiator(Some(p))) && p != ""
  {
  }

  lemma {:induction false} ParentIsLast(resources: seq<Resource>, url: string, p: string)
    ensures Parent(resources, url) == Some(p) <==> exists j :: LoadedLast(resources, url, j, p)
  {
    if resources != [] {
      var n := |resources| - 1;
      ParentIsLast(resources[..n], url, p);
      var last := resources[n];
      UnnamedExactly(last);
      hide Unnamed, NamedInitiator;
      if last.url == url && NamedInitiator(last).Some? {
        if j: nat :| LoadedLast(resources, url, j, p) {
          assert j == n;
        }
        assert NamedInitiator(last) == Some(p) ==> LoadedLast(resources, url, n, p);
      } else {
        if j: nat :| LoadedLast(resources[..n], url, j, p) {
          assert LoadedLast(resources, url, j, p);
        }
        if j: nat :| LoadedLast(resources, url, j, p) {
          assert LoadedLast(resources[..n], url, j, p);
        }
      }
    }
  }

  /** The URL `n` parent links above `url`. */
  function Ancestor(resources: seq<Resource>, url: string, n: nat): Option<string> {
    if n == 0 then Some(url) else
      match Ancestor(resources, url, n - 1)
      case None => None
      case Some(u) => Parent(resources, u)
  }

  ghost predicate Reaches(resources: seq<Resource>, url: string, u: string) {
    exists n: nat :: Ancestor(resources, url, n) == Some(u)
  }

  function Urls(resources: seq<Resource>): set<string> {
    set r | r in resources && NamedInitiator(r).Some? :: NamedInitiator(r).value
  }

  /** Everything above `url`, itself included. */
  ghost function ReachableUrls(resources: seq<Resource>, url: string): set<string> {
    set u | u in Urls(resources) + {url} && Reaches(resources, url, u)
  }

  ghost function ChainDepth(resources: seq<Resource>, url: string): int {
    Min(101, |ReachableUrls(resources, url)| - 1)
  }

  lemma {:induction false} ParentIsNamed(resources: seq<Resource>, url: string)
    ensures Parent(resources, url).Some? ==> Parent(resources, url).value in Urls(resources)
  {
    if resources != [] {
      var n := |resources| - 1;
      ParentIsNamed(resources[..n], url);
      assert Urls(resources[..n]) <= Urls(resources);
    }
  }

  /** The bound on the URLs considered loses none. */
  lemma ReachableExactly(resources: seq<Resource>, url: string, u: string)
    ensures u in ReachableUrls(resources, url) <==> Reaches(resources, url, u)
  {
    if Reaches(resources, url, u) {
      var n: nat :| Ancestor(resources, url, n) == Some(u);
      if n > 0 {
        ParentIsNamed(resources, Ancestor(resources, url, n - 1).value);
      }
    }
  }

  lemma ReachesNext(resources: seq<Resource>, url: string, u: string)
    requires Reaches(resources, url, u) && Parent(resources, u).Some?
    ensures Reaches(resources, url, Parent(resources, u).value)
  {
    var n: nat :| Ancestor(resources, url, n) == Some(u);
    assert Ancestor(resources, url, n + 1) == Parent(resources, u);
  }

  /** A set that holds the start and every parent of its members holds everything above. */
  lemma {:induction false} ClosedHoldsAll(resources: seq<Resource>, url: string, seen: set<string>, n: nat)
    requires url in seen
    requires forall u | u in seen && Parent(resources, u).Some? :: Parent(resources, u).value in seen
    ensures Ancestor(resources, url, n).Some? ==> Ancestor(resources, url, n).value in seen
  {
    if n > 0 {
      ClosedHoldsAll(resources, url, seen, n - 1);
    }
  }

  lemma SeenAll(resources: seq<Resource>, url: string, seen: set<string>)
    requires url in seen
    requires forall u | u in seen :: Reaches(resources, url, u)
    requires forall u | u in seen && Parent(resources, u).Some? :: Parent(resources, u).value in seen
    ensures seen == ReachableUrls(resources, url)
  {
    forall u
      ensures u in seen <==> u in ReachableUrls(resources, url)
    {
      ReachableExactly(resources, url, u);
      if Reaches(resources, url, u) {
        var n: nat :| Ancestor(resources, url, n) == Some(u);
        ClosedHoldsAll(resources, url, seen, n);
      }
    }
  }

  lemma SeenSome(resources: seq<Resource>, url: string, seen: set<string>)
    requires forall u | u in seen :: Reaches(resources, url, u)
    ensures |seen| <= |ReachableUrls(resources, url)|
  {
    forall u | u in seen
      ensures u in ReachableUrls(resources, url)
    {
      ReachableExactly(resources, url, u);
    }
    SubsetSize(seen, ReachableUrls(resources, url));
  }

  // ---------------------------------------------------------------- the walk

  /** The parent map agrees with the first `k` resources. */
  ghost predicate Built(parent: map<string, string>, resources: seq<Resource>) {
    forall u: string :: Parent(resources, u) == if u in parent then Some(parent[u]) else None
  }

  method BuildParents(resources: seq<Resource>) returns (parent: map<string, string>)
    ensures Built(parent, resources)
  {
    parent := map[];
    for i := 0 to |resources|
      invariant Built(parent, resources[..i])
    {
      var r := resources[i];
      assert resources[..i + 1][..i] == resources[..i];
      if r.initiator.Some? && r.initiator.value.url.Some? {
        var p := r.initiator.value.url.value;
        if p != "" {
          parent := parent[r.url := p];
        }
      }
    }
    assert resources[..|resources|] == resources;
  }

  method Walk(parent: map<string, string>, url: string, ghost resources: seq<Resource>) returns (depth: nat)
    requires Built(parent, resources)
    ensures depth == ChainDepth(resources, url)
  {
    depth := 0;
    var current := url;
    var seen := {url};
    assert Ancestor(resources, url, 0) == Some(url);
    while current in parent
      invariant depth <= MAX_HOPS && |seen| == depth + 1
      invariant url in seen && current in seen
      invariant forall u | u in seen :: Reaches(resources, url, u)
      invariant forall u | u in seen && u != current && u in parent :: parent[u] in seen
      decreases MAX_HOPS - depth
    {
      var p := parent[current];
      ReachesNext(resources, url, current);
      if p in seen {
        break;
      }
      seen := seen + {p};
      depth := depth + 1;
      current := p;
      if depth > MAX_HOPS {
        SeenSome(resources, url, seen);
        return;
      }
    }
    SeenAll(resources, url, seen);
  }

  /** `None` without initiator data; else the longest chain, cut off at 101 links. */
  ghost predicate IsMaxDepth(resources: seq<Resource>, depth: Option<nat>) {
    && (depth == None <==> forall r | r in resources :: r.initiator == None)
    && (depth.Some? ==> forall r | r in resources :: ChainDepth(resources, r.url) <= depth.value)
    && (depth.Some? ==> exists r :: r in resources && ChainDepth(resources, r.url) == depth.value)
  }

  /** Cycles of initiators end the walk. */
  method ComputeInitiatorChainDepth(resources: seq<Resource>) returns (depth: Option<nat>)
    ensures IsMaxDepth(resources, depth)
  {
    hide ChainDepth, Built;
    if forall r | r in resources :: !r.initiator.Some? {
      return None;
    }
    var parent := BuildParents(resources);
    var maxDepth: nat := 0;
    for i := 0 to |resources|
      invariant forall j | 0 <= j < i :: ChainDepth(resources, resources[j].url) <= maxDepth
      invariant if i == 0 then maxDepth == 0
                else exists j :: 0 <= j < i && ChainDepth(resources, resources[j].url) == maxDepth
    {
      var d := Walk(parent, resources[i].url, resources);
      maxDepth := if d > maxDepth then d else maxDepth;
      if i == 0 {
        assert ChainDepth(resources, resources[0].url) == maxDepth;
      }
    }
    return Some(maxDepth);
  }

  // ---------------------------------------------------------------- reading the depth

  /** Depth zero means no parent, or none but itself. */
  lemma ZeroExactlyWhen(resources: seq<Resource>, url: string)
    ensures ChainDepth(resources, url) == 0 <==> Parent(resources, url) in {None, Some(url)}
  {
    assert Ancestor(resources, url, 0) == Some(url);
    ReachableExactly(resources, url, url);
    if Parent(resources, url) in {None, Some(url)} {
      SeenAll(resources, url, {url});
    } else {
      var p := Parent(resources, url).value;
      ReachesNext(resources, url, url);
      SeenSome(resources, url, {url, p});
    }
  }

  function Name(n: nat): string { seq(n + 1, _ => 'u') }

  function LoadedBy(url: string, parent: string): Resource {
    Resource(url, None, "", 200, 0, false, false, "", Some(Initiator(Some(parent))))
  }

  /** Resource `i` was loaded by resource `i + 1`. */
  function Ladder(n: nat): seq<Resource> {
    seq(n, i requires 0 <= i => LoadedBy(Name(i), Name(i + 1)))
  }

  lemma {:induction false} LadderParent(n: nat, i: nat)
    ensures Parent(Ladder(n), Name(i)) == if i < n then Some(Name(i + 1)) else None
  {
    if n > 0 {
      assert Ladder(n)[..n - 1] == Ladder(n - 1);
      LadderParent(n - 1, i);
      assert |Name(n - 1)| == n && |Name(i)| == i + 1;
    }
  }

  lemma {:induction false} Climbed(n: nat, k: nat) returns (seen: set<string>)
    requires k <= n
    ensures |seen| == k + 1 && Ancestor(Ladder(n), Name(0), k) == Some(Name(k))
    ensures forall u | u in seen :: Reaches(Ladder(n), Name(0), u) && |u| <= k + 1
    ensures forall u | u in seen && u != Name(k) && Parent(Ladder(n), u).Some? :: Parent(Ladder(n), u).value in seen
    ensures Name(0) in seen && Name(k) in seen
  {
    hide Parent, Ladder;
    if k == 0 {
      assert Ancestor(Ladder(n), Name(0), 0) == Some(Name(0));
      seen := {Name(0)};
    } else {
      seen := Climbed(n, k - 1);
      LadderParent(n, k - 1);
      assert Ancestor(Ladder(n), Name(0), k) == Some(Name(k));
      hide Ancestor;
      seen := seen + {Name(k)};
    }
  }

  /** A straight chain of `n` links has depth `n`, up to 101: one more than the hops the
      documentation of the walk allows. */
  lemma LadderDepth(n: nat)
    ensures ChainDepth(Ladder(n), Name(0)) == Min(101, n)
  {
    var seen := Climbed(n, n);
    LadderParent(n, n);
    SeenAll(Ladder(n), Name(0), seen);
  }
}
