/** The aggregate view of a page's resources. */
module ResourceSummary {
  import opened Wrappers
  import opened Strings
  import opened Ranking
  import opened Tallies
  import opened Resources
  import opened Duplicates
  import opened Initiators

  datatype DomainBytes = DomainBytes(host: string, bytes: nat, count: nat)

  /** Where a response came from. */
  datatype Origin = Cached | Reused | Fresh

  datatype Summary = Summary(bytesByType: map<string, nat>,
                             countByType: map<string, nat>,
                             statusDistribution: map<string, nat>,
                             protocolDistribution: map<string, nat>,
                             cachedBytes: nat,
                             connectionsReused: nat,
                             connectionsNew: nat,
                             cacheHitRatio: real,
                             modernProtocolShare: real,
                             uniqueHosts: nat,
                             largest: Option<(string, nat)>,
                             thirdPartyBytes: nat,
                             topThirdPartyDomains: seq<DomainBytes>,
                             thirdPartyScriptBytes: nat,
                             thirdPartyScriptOrigins: seq<DomainBytes>,
                             duplicates: DuplicateResources,
                             maxInitiatorChainDepth: Option<nat>)

  // ---------------------------------------------------------------- classification

  function MimeBucket(mime: string): string {
    var m := AsciiLower(mime);
    if "image/" <= m then "image"
    else if "video/" <= m || "audio/" <= m then "media"
    else if "font/" <= m || Contains(m, "woff") || Contains(m, "opentype") || Contains(m, "truetype") then "font"
    else if Contains(m, "javascript") || Contains(m, "ecmascript") then "javascript"
    else if Contains(m, "css") then "css"
    else if Contains(m, "html") then "html"
    else if Contains(m, "xml") then "xml"
    else if Contains(m, "json") then "json"
    else "other"
  }

  function StatusBucket(status: nat): string {
    if 100 <= status <= 199 then "1xx"
    else if 200 <= status <= 299 then "2xx"
    else if 300 <= status <= 399 then "3xx"
    else if 400 <= status <= 499 then "4xx"
    else if 500 <= status <= 599 then "5xx"
    else "other"
  }

  function ProtocolName(protocol: string): string { if protocol == "" then "unknown" else AsciiLower(protocol) }

  predicate IsModern(protocol: string) { protocol == "h2" || "h3" <= protocol }

  function TypeKey(r: Resource): Option<string> { Some(MimeBucket(r.mimeType)) }

  function StatusKey(r: Resource): Option<string> { Some(StatusBucket(r.status)) }

  function OriginKey(r: Resource): Option<Origin> {
    Some(if r.fromCache then Cached else if r.connectionReused then Reused else Fresh)
  }

  /** Cached responses have no protocol. */
  function ProtocolKey(r: Resource): Option<string> { if r.fromCache then None else Some(ProtocolName(r.protocol)) }

  function ModernKey(r: Resource): Option<string> {
    if r.fromCache || !IsModern(ProtocolName(r.protocol)) then None else Some(ProtocolName(r.protocol))
  }

  /** The host of a resource that is not the target's; none is third-party without a target host. */
  function ThirdParty(target: string): Resource -> Option<string> {
    (r: Resource) => if r.host.Some? && target != "" && r.host.value != target then r.host else None
  }

  function ThirdPartyScript(target: string): Resource -> Option<string> {
    (r: Resource) => if MimeBucket(r.mimeType) == "javascript" then ThirdParty(target)(r) else None
  }

  function HostOf(r: Resource): Option<string> { r.host }

  function One(r: Resource): nat { 1 }

  // ---------------------------------------------------------------- hosts

  predicate MoreBytes(a: DomainBytes, b: DomainBytes) {
    a.bytes > b.bytes || (a.bytes == b.bytes && LexLe(a.host, b.host))
  }

  lemma MoreBytesRanks()
    ensures Ranks(MoreBytes)
  {
    LexRanks();
  }

  /** Bytes and count by host. */
  function Slots(rs: seq<Resource>, key: Resource -> Option<string>): map<string, (nat, nat)> {
    if rs == [] then map[] else
      var n := |rs| - 1;
      var m := Slots(rs[..n], key);
      match key(rs[n])
      case None => m
      case Some(h) =>
        var slot := if h in m then m[h] else (0, 0);
        m[h := (slot.0 + rs[n].contentSize, slot.1 + 1)]
  }

  lemma SlotsNext(rs: seq<Resource>, i: nat, key: Resource -> Option<string>)
    requires i < |rs|
    ensures var m := Slots(rs[..i], key);
            Slots(rs[..i + 1], key)
            == match key(rs[i])
               case None => m
               case Some(h) =>
                 var slot := if h in m then m[h] else (0, 0);
                 m[h := (slot.0 + rs[i].contentSize, slot.1 + 1)]
  {
    assert rs[..i + 1][..i] == rs[..i];
  }

  /** The slots are the shares of the hosts. */
  lemma {:induction false} SlotsAre(rs: seq<Resource>, key: Resource -> Option<string>, h: string)
    ensures h in Slots(rs, key) <==> h in Keys(rs, key)
    ensures (if h in Slots(rs, key) then Slots(rs, key)[h] else (0, 0))
      == (Share(rs, key, SizeOf, h), Share(rs, key, One, h))
  {
    if rs != [] {
      var n := |rs| - 1;
      assert rs == rs[..n] + [rs[n]];
      SlotsAre(rs[..n], key, h);
    }
  }

  ghost predicate IsDomain(rs: seq<Resource>, key: Resource -> Option<string>, d: DomainBytes) {
    && d.host in Keys(rs, key)
    && d.bytes == Share(rs, key, SizeOf, d.host)
    && d.count == Share(rs, key, One, d.host)
  }

  /** The map is visited in any order. */
  method DomainsOf(slots: map<string, (nat, nat)>) returns (ds: seq<DomainBytes>)
    ensures Distinct(ds)
    ensures forall d :: d in ds <==> d.host in slots && slots[d.host] == (d.bytes, d.count)
  {
    ds := [];
    var todo := slots.Keys;
    while todo != {}
      invariant todo <= slots.Keys
      invariant Distinct(ds)
      invariant forall d :: d in ds <==> d.host in slots && d.host !in todo && slots[d.host] == (d.bytes, d.count)
    {
      var h :| h in todo;
      todo := todo - {h};
      ds := ds + [DomainBytes(h, slots[h].0, slots[h].1)];
    }
  }

  method TopDomains(rs: seq<Resource>, key: Resource -> Option<string>, slots: map<string, (nat, nat)>)
    returns (top: seq<DomainBytes>)
    requires slots == Slots(rs, key)
    ensures Top(top, d => IsDomain(rs, key, d), MoreBytes, TOP)
  {
    var ds := DomainsOf(slots);
    MoreBytesRanks();
    forall d
      ensures d in ds <==> IsDomain(rs, key, d)
    {
      SlotsAre(rs, key, d.host);
    }
    hide IsDomain, Sort, Take, Slots, Top, Ranks, Distinct, MoreBytes;
    SortThenTake(ds, d => IsDomain(rs, key, d), MoreBytes, TOP);
    top := Take(Sort(ds, MoreBytes), TOP);
  }

  // ---------------------------------------------------------------- the summary

  ghost function Hosts(rs: seq<Resource>): set<string> { Keys(rs, HostOf) }

  ghost predicate FirstLargest(rs: seq<Resource>, i: int, url: string, size: nat) {
    && 0 <= i < |rs|
    && rs[i].url == url && rs[i].contentSize == size
    && forall j | 0 <= j < |rs| :: rs[j].contentSize <= size && (j < i ==> rs[j].contentSize < size)
  }

  /** The first resource of the largest size. */
  ghost predicate IsLargest(rs: seq<Resource>, largest: Option<(string, nat)>) {
    match largest
    case None => rs == []
    case Some((url, size)) => exists i :: FirstLargest(rs, i, url, size)
  }

  /** Counters by type and by status class. */
  datatype Types = Types(bytes: map<string, nat>, count: map<string, nat>, status: map<string, nat>)

  function CountType(t: Types, r: Resource): Types {
    var bucket := MimeBucket(r.mimeType);
    Types(Bump(t.bytes, bucket, r.contentSize), Bump(t.count, bucket, 1), Bump(t.status, StatusBucket(r.status), 1))
  }

  ghost predicate TypesFit(rs: seq<Resource>, t: Types) {
    && t.bytes == Tally(rs, TypeKey, SizeOf)
    && t.count == Tally(rs, TypeKey, One)
    && t.status == Tally(rs, StatusKey, One)
  }

  lemma TypesNext(rs: seq<Resource>, i: nat, t: Types)
    requires i < |rs| && TypesFit(rs[..i], t)
    ensures TypesFit(rs[..i + 1], CountType(t, rs[i]))
  {
    TallyNext(rs, i, TypeKey, SizeOf);
    TallyNext(rs, i, TypeKey, One);
    TallyNext(rs, i, StatusKey, One);
    hide Tally, MimeBucket, StatusBucket;
  }

  /** Counters of where the responses came from and how. */
  datatype Traffic = Traffic(cacheHits: nat, cachedBytes: nat, reused: nat, newConns: nat, network: nat, modern: nat,
                             protocols: map<string, nat>)

  function CountResponse(t: Traffic, r: Resource): Traffic {
    if r.fromCache then t.(cacheHits := t.cacheHits + 1, cachedBytes := t.cachedBytes + r.contentSize)
    else
      var t := if r.connectionReused then t.(reused := t.reused + 1) else t.(newConns := t.newConns + 1);
      var p := ProtocolName(r.protocol);
      t.(network := t.network + 1,
         modern := if IsModern(p) then t.modern + 1 else t.modern,
         protocols := Bump(t.protocols, p, 1))
  }

  ghost predicate TrafficFits(rs: seq<Resource>, t: Traffic) {
    && t.cacheHits == Share(rs, OriginKey, One, Cached)
    && t.cachedBytes == Share(rs, OriginKey, SizeOf, Cached)
    && t.reused == Share(rs, OriginKey, One, Reused)
    && t.newConns == Share(rs, OriginKey, One, Fresh)
    && t.network == Keyed(rs, ProtocolKey, One)
    && t.modern == Keyed(rs, ModernKey, One)
    && t.protocols == Tally(rs, ProtocolKey, One)
  }

  lemma TrafficNext(rs: seq<Resource>, i: nat, t: Traffic)
    requires i < |rs| && TrafficFits(rs[..i], t)
    ensures TrafficFits(rs[..i + 1], CountResponse(t, rs[i]))
  {
    ShareNext(rs, i, OriginKey, One, Cached);
    ShareNext(rs, i, OriginKey, SizeOf, Cached);
    ShareNext(rs, i, OriginKey, One, Reused);
    ShareNext(rs, i, OriginKey, One, Fresh);
    KeyedNext(rs, i, ProtocolKey, One);
    KeyedNext(rs, i, ModernKey, One);
    TallyNext(rs, i, ProtocolKey, One);
    hide Tally, Share, Keyed, ProtocolName, IsModern;
  }

  /** The bytes of some hosts, in all and by host. */
  datatype Party = Party(bytes: nat, slots: map<string, (nat, nat)>)

  function CountHost(p: Party, h: string, size: nat): Party {
    var slot := if h in p.slots then p.slots[h] else (0, 0);
    Party(p.bytes + size, p.slots[h := (slot.0 + size, slot.1 + 1)])
  }

  ghost predicate PartyFits(rs: seq<Resource>, key: Resource -> Option<string>, p: Party) {
    p.bytes == Keyed(rs, key, SizeOf) && p.slots == Slots(rs, key)
  }

  lemma PartyNext(rs: seq<Resource>, i: nat, key: Resource -> Option<string>, p: Party)
    requires i < |rs| && PartyFits(rs[..i], key, p)
    ensures PartyFits(rs[..i + 1], key,
                      if key(rs[i]).Some? then CountHost(p, key(rs[i]).value, rs[i].contentSize) else p)
  {
    KeyedNext(rs, i, key, SizeOf);
    SlotsNext(rs, i, key);
    hide Keyed, Slots;
  }

  lemma PartyOf(r: Resource, target: string)
    ensures var third := r.host.Some? && target != "" && r.host.value != target;
            && ThirdParty(target)(r) == (if third then r.host else None)
            && ThirdPartyScript(target)(r) == (if third && MimeBucket(r.mimeType) == "javascript" then r.host else None)
  {
    hide MimeBucket;
  }

  lemma LargestNext(rs: seq<Resource>, i: nat, largest: Option<(string, nat)>)
    requires i < |rs| && IsLargest(rs[..i], largest)
    ensures IsLargest(rs[..i + 1],
                      if largest.None? || rs[i].contentSize > largest.value.1
                      then Some((rs[i].url, rs[i].contentSize)) else largest)
  {
    if largest.Some? && rs[i].contentSize <= largest.value.1 {
      var k :| FirstLargest(rs[..i], k, largest.value.0, largest.value.1);
      LargerOrSame(rs, i, k, largest.value.0, largest.value.1);
    } else if largest.Some? {
      var k :| FirstLargest(rs[..i], k, largest.value.0, largest.value.1);
      LargerThanAll(rs, i, k, largest.value.0, largest.value.1);
    } else {
      assert FirstLargest(rs[..i + 1], i, rs[i].url, rs[i].contentSize);
    }
  }

  lemma LargerOrSame(rs: seq<Resource>, i: nat, k: int, url: string, size: nat)
    requires i < |rs| && FirstLargest(rs[..i], k, url, size) && rs[i].contentSize <= size
    ensures FirstLargest(rs[..i + 1], k, url, size)
  {
    assert rs[..i + 1] == rs[..i] + [rs[i]];
  }

  lemma LargerThanAll(rs: seq<Resource>, i: nat, k: int, url: string, size: nat)
    requires i < |rs| && FirstLargest(rs[..i], k, url, size) && rs[i].contentSize > size
    ensures FirstLargest(rs[..i + 1], i, rs[i].url, rs[i].contentSize)
  {
    assert rs[..i + 1] == rs[..i] + [rs[i]];
  }

  ghost predicate Summarizes(rs: seq<Resource>, target: string, s: Summary) {
    var (cacheHits, network, modern) :=
      (Share(rs, OriginKey, One, Cached), Keyed(rs, ProtocolKey, One), Keyed(rs, ModernKey, One));
    && TypesFit(rs, Types(s.bytesByType, s.countByType, s.statusDistribution))
    && TrafficFits(rs,
                   Traffic(cacheHits, s.cachedBytes, s.connectionsReused, s.connectionsNew, network, modern,
                           s.protocolDistribution))
    && s.cacheHitRatio == Ratio(cacheHits, |rs|)
    && s.modernProtocolShare == Ratio(modern, network)
    && s.uniqueHosts == |Hosts(rs)|
    && s.thirdPartyBytes == Keyed(rs, ThirdParty(target), SizeOf)
    && s.thirdPartyScriptBytes == Keyed(rs, ThirdPartyScript(target), SizeOf)
    && IsLargest(rs, s.largest)
  }

  lemma NothingYet(key: Resource -> Option<string>)
    ensures TypesFit([], Types(map[], map[], map[]))
    ensures TrafficFits([], Traffic(0, 0, 0, 0, 0, 0, map[]))
    ensures Hosts([]) == {} && PartyFits([], key, Party(0, map[])) && IsLargest([], None)
  {
  }

  /** The loop over the resources, and the shares it leads to. */
  method Accumulate(rs: seq<Resource>, target: string)
    returns (s: Summary, thirdParties: Party, scripts: Party)
    ensures Summarizes(rs, target, s)
    ensures PartyFits(rs, ThirdParty(target), thirdParties) && PartyFits(rs, ThirdPartyScript(target), scripts)
  {
    var types, traffic := Types(map[], map[], map[]), Traffic(0, 0, 0, 0, 0, 0, map[]);
    var hosts: set<string> := {};
    thirdParties, scripts := Party(0, map[]), Party(0, map[]);
    var largest: Option<(string, nat)> := None;
    NothingYet(ThirdParty(target));
    NothingYet(ThirdPartyScript(target));
    hide TypesFit, TrafficFits, PartyFits, Slots, ThirdParty, ThirdPartyScript, IsLargest, MimeBucket, Keys, Share,
         Keyed, CountType, CountHost, CountResponse, Ratio;
    for i := 0 to |rs|
      invariant TypesFit(rs[..i], types)
      invariant TrafficFits(rs[..i], traffic)
      invariant hosts == Hosts(rs[..i])
      invariant PartyFits(rs[..i], ThirdParty(target), thirdParties)
      invariant PartyFits(rs[..i], ThirdPartyScript(target), scripts)
      invariant IsLargest(rs[..i], largest)
    {
      var r := rs[i];
      TypesNext(rs, i, types);
      TrafficNext(rs, i, traffic);
      KeysNext(rs, i, HostOf);
      PartyOf(r, target);
      PartyNext(rs, i, ThirdParty(target), thirdParties);
      PartyNext(rs, i, ThirdPartyScript(target), scripts);
      LargestNext(rs, i, largest);
      types := CountType(types, r);
      traffic := CountResponse(traffic, r);
      if r.host.Some? {
        var h := r.host.value;
        hosts := hosts + {h};
        if target != "" && h != target {
          thirdParties := CountHost(thirdParties, h, r.contentSize);
          if MimeBucket(r.mimeType) == "javascript" {
            scripts := CountHost(scripts, h, r.contentSize);
          }
        }
      }
      if largest.None? || r.contentSize > largest.value.1 {
        largest := Some((r.url, r.contentSize));
      }
    }
    assert rs[..|rs|] == rs;
    TrafficFields(rs, traffic);
    PartyFields(rs, ThirdParty(target), thirdParties);
    PartyFields(rs, ThirdPartyScript(target), scripts);
    s := Summary(types.bytes, types.count, types.status, traffic.protocols, traffic.cachedBytes, traffic.reused,
                 traffic.newConns, Ratio(traffic.cacheHits, |rs|), Ratio(traffic.modern, traffic.network), |hosts|,
                 largest, thirdParties.bytes, [], scripts.bytes, [], DuplicateResources([], [], 0), None);
  }

  /** The host of the target URL is empty when it does not parse. */
  method BuildResourceSummary(rs: seq<Resource>, target: string) returns (s: Summary)
    ensures Summarizes(rs, target, s)
    ensures Top(s.topThirdPartyDomains, d => IsDomain(rs, ThirdParty(target), d), MoreBytes, TOP)
    ensures Top(s.thirdPartyScriptOrigins, d => IsDomain(rs, ThirdPartyScript(target), d), MoreBytes, TOP)
    ensures Reports(rs, s.duplicates)
    ensures IsMaxDepth(rs, s.maxInitiatorChainDepth)
  {
    var thirdParties, scripts;
    s, thirdParties, scripts := Accumulate(rs, target);
    var domains := TopDomains(rs, ThirdParty(target), thirdParties.slots);
    var origins := TopDomains(rs, ThirdPartyScript(target), scripts.slots);
    var duplicates := BuildDuplicateResources(rs);
    var depth := ComputeInitiatorChainDepth(rs);
    s := s.(topThirdPartyDomains := domains, thirdPartyScriptOrigins := origins, duplicates := duplicates,
            maxInitiatorChainDepth := depth);
    hide Top, IsDomain, Reports, IsMaxDepth, Keyed, Slots, Share, TypesFit, TrafficFits, IsLargest, ThirdParty,
         ThirdPartyScript;
  }

  lemma PartyFields(rs: seq<Resource>, key: Resource -> Option<string>, p: Party)
    requires PartyFits(rs, key, p)
    ensures p.bytes == Keyed(rs, key, SizeOf) && p.slots == Slots(rs, key)
  {
  }

  lemma TrafficFields(rs: seq<Resource>, t: Traffic)
    requires TrafficFits(rs, t)
    ensures t.cacheHits == Share(rs, OriginKey, One, Cached) && t.network == Keyed(rs, ProtocolKey, One)
    ensures t.modern == Keyed(rs, ModernKey, One)
  {
  }

  // ---------------------------------------------------------------- conservation

  lemma {:induction false} AllCount<K>(rs: seq<Resource>, key: Resource -> Option<K>)
    requires forall r | r in rs :: key(r).Some?
    ensures Keyed(rs, key, One) == |rs|
    ensures Keyed(rs, key, SizeOf) == Sum(Sizes(rs))
  {
    if rs != [] {
      var n := |rs| - 1;
      assert rs[n] in rs;
      AllCount(rs[..n], key);
      assert Sizes(rs)[..n] == Sizes(rs[..n]);
    }
  }

  lemma {:induction false} OriginsCount(rs: seq<Resource>)
    ensures Share(rs, OriginKey, One, Cached) + Share(rs, OriginKey, One, Reused) + Share(rs, OriginKey, One, Fresh)
      == |rs|
    ensures Keyed(rs, ProtocolKey, One) == Share(rs, OriginKey, One, Reused) + Share(rs, OriginKey, One, Fresh)
    ensures Keyed(rs, ModernKey, One) <= Keyed(rs, ProtocolKey, One)
    ensures Share(rs, OriginKey, SizeOf, Cached) <= Sum(Sizes(rs))
  {
    if rs != [] {
      OriginsCount(rs[..|rs| - 1]);
      assert Sizes(rs)[..|rs| - 1] == Sizes(rs[..|rs| - 1]);
      hide ProtocolName, IsModern;
    }
  }

  lemma {:induction false} ScriptsWithin(rs: seq<Resource>, target: string)
    ensures Keyed(rs, ThirdPartyScript(target), SizeOf) <= Keyed(rs, ThirdParty(target), SizeOf) <= Sum(Sizes(rs))
  {
    if rs != [] {
      ScriptsWithin(rs[..|rs| - 1], target);
      assert Sizes(rs)[..|rs| - 1] == Sizes(rs[..|rs| - 1]);
      hide MimeBucket;
    }
  }

  /** The parts of every summary add up. */
  lemma SummaryConserves(rs: seq<Resource>, target: string, s: Summary)
    requires Summarizes(rs, target, s)
    ensures MapSum(s.bytesByType) == Sum(Sizes(rs))
    ensures MapSum(s.countByType) == |rs| && MapSum(s.statusDistribution) == |rs|
    ensures Share(rs, OriginKey, One, Cached) + s.connectionsReused + s.connectionsNew == |rs|
    ensures MapSum(s.protocolDistribution) == s.connectionsReused + s.connectionsNew
    ensures s.thirdPartyScriptBytes <= s.thirdPartyBytes <= Sum(Sizes(rs)) && s.cachedBytes <= Sum(Sizes(rs))
    ensures 0.0 <= s.cacheHitRatio <= 1.0 && 0.0 <= s.modernProtocolShare <= 1.0
  {
    TallyConserves(rs, TypeKey, SizeOf);
    TallyConserves(rs, TypeKey, One);
    TallyConserves(rs, StatusKey, One);
    TallyConserves(rs, ProtocolKey, One);
    AllCount(rs, TypeKey);
    AllCount(rs, StatusKey);
    OriginsCount(rs);
    ScriptsWithin(rs, target);
    hide Tally, Keyed, Share, MapSum, Sum, IsLargest, TypeKey, StatusKey;
    RatioInUnit(Share(rs, OriginKey, One, Cached), |rs|);
    RatioInUnit(Keyed(rs, ModernKey, One), Keyed(rs, ProtocolKey, One));
  }

  /** Each ratio is the share it is named after; there is none of nothing. */
  lemma RatiosMean(rs: seq<Resource>, target: string, s: Summary)
    requires Summarizes(rs, target, s)
    ensures s.cacheHitRatio * |rs| as real == Share(rs, OriginKey, One, Cached) as real
    ensures s.modernProtocolShare * Keyed(rs, ProtocolKey, One) as real == Keyed(rs, ModernKey, One) as real
    ensures (rs == [] ==> s.cacheHitRatio == 0.0) && (Keyed(rs, ProtocolKey, One) == 0 ==> s.modernProtocolShare == 0.0)
  {
    OriginsCount(rs);
    hide Keyed, Share, TypesFit, TrafficFits, IsLargest, Ratio;
    RatioTimes(Share(rs, OriginKey, One, Cached), |rs|);
    RatioTimes(Keyed(rs, ModernKey, One), Keyed(rs, ProtocolKey, One));
  }

  // ---------------------------------------------------------------- what is classified how

  /** A status class is named after its hundreds. */
  lemma StatusBucketMeans(status: nat)
    ensures StatusBucket(status) == if 100 <= status < 600 then ['0' + (status / 100) as char] + "xx" else "other"
  {
    var d := status / 100;
    if 100 <= status < 600 {
      assert 1 <= d <= 5;
      assert ['0' + 1 as char] + "xx" == "1xx" && ['0' + 2 as char] + "xx" == "2xx";
      assert ['0' + 3 as char] + "xx" == "3xx";
      assert ['0' + 4 as char] + "xx" == "4xx" && ['0' + 5 as char] + "xx" == "5xx";
    }
  }

  /** What makes a lower-case type belong to a bucket, before any later one is looked at. */
  predicate Belongs(m: string, bucket: string) {
    match bucket
    case "image" => "image/" <= m
    case "media" => "video/" <= m || "audio/" <= m
    case "font" => "font/" <= m || Contains(m, "woff") || Contains(m, "opentype") || Contains(m, "truetype")
    case "javascript" => Contains(m, "javascript") || Contains(m, "ecmascript")
    case "css" => Contains(m, "css")
    case "html" => Contains(m, "html")
    case "xml" => Contains(m, "xml")
    case "json" => Contains(m, "json")
    case _ => true
  }

  const BUCKETS := ["image", "media", "font", "javascript", "css", "html", "xml", "json", "other"]

  /** The bucket at `i` is the first that the type belongs to. */
  predicate FirstBucket(m: string, i: nat) {
    i < |BUCKETS| && Belongs(m, BUCKETS[i]) && forall j | 0 <= j < i :: !Belongs(m, BUCKETS[j])
  }

  lemma FirstBucketOf(m: string) returns (i: nat)
    ensures FirstBucket(m, i)
  {
    hide Contains;
    i := 0;
    while !Belongs(m, BUCKETS[i])
      invariant i < |BUCKETS| && forall j | 0 <= j < i :: !Belongs(m, BUCKETS[j])
      decreases |BUCKETS| - i
    {
      i := i + 1;
    }
  }

  /** A type goes into the first bucket it belongs to, whatever its case. */
  lemma MimeBucketMeans(mime: string)
    ensures exists i: nat :: FirstBucket(AsciiLower(mime), i) && MimeBucket(mime) == BUCKETS[i]
  {
    var m := AsciiLower(mime);
    var i := FirstBucketOf(m);
    hide Contains, AsciiLower;
    assert BUCKETS[0] == "image" && BUCKETS[1] == "media" && BUCKETS[2] == "font" && BUCKETS[3] == "javascript";
    assert BUCKETS[4] == "css" && BUCKETS[5] == "html" && BUCKETS[6] == "xml" && BUCKETS[7] == "json";
    assert FirstBucket(m, i) && MimeBucket(mime) == BUCKETS[i];
  }

  /** Every resource counts once and for its bytes, under its type and its status class. A third
      party is another host than the target's; a connection is new or reused only for what did not
      come from a cache, and only that has a protocol, compared in lower case. */
  lemma KeysMean(r: Resource, target: string)
    ensures OriginKey(r) == Some(if r.fromCache then Cached else if r.connectionReused then Reused else Fresh)
    ensures ProtocolKey(r).Some? <==> !r.fromCache
    ensures ModernKey(r).Some? <==> !r.fromCache && (AsciiLower(r.protocol) == "h2" || "h3" <= AsciiLower(r.protocol))
    ensures ModernKey(r).Some? ==> ModernKey(r) == ProtocolKey(r)
    ensures ProtocolKey(r).Some? ==>
              ProtocolKey(r).value == if r.protocol != "" then AsciiLower(r.protocol) else "unknown"
    ensures ThirdParty(target)(r).Some? <==> target != "" && r.host.Some? && r.host != Some(target)
    ensures ThirdParty(target)(r).Some? ==> ThirdParty(target)(r) == r.host
    ensures TypeKey(r) == Some(MimeBucket(r.mimeType)) && StatusKey(r) == Some(StatusBucket(r.status))
    ensures HostOf(r) == r.host && (SizeOf(r), One(r)) == (r.contentSize, 1)
    ensures ThirdPartyScript(target)(r)
            == if MimeBucket(r.mimeType) == "javascript" then ThirdParty(target)(r) else None
  {
    hide MimeBucket, StatusBucket;
    assert AsciiLower("") == "";
    assert "unknown"[0] == 'u' && "h3"[0] == 'h';
  }

  /** At most ten hosts, the most bytes first and equal ones by name, and none left out has more. */
  lemma DomainsRank(top: seq<DomainBytes>, entitled: DomainBytes -> bool)
    requires Top(top, entitled, MoreBytes, TOP)
    ensures |top| <= 10
    ensures forall i, j | 0 <= i <= j < |top| ::
              top[i].bytes > top[j].bytes || (top[i].bytes == top[j].bytes && LexLe(top[i].host, top[j].host))
    ensures forall d, t | entitled(d) && d !in top && t in top ::
              |top| == 10 && (t.bytes > d.bytes || (t.bytes == d.bytes && LexLe(t.host, d.host)))
  {
    hide LexLe;
    assert forall i, j | 0 <= i <= j < |top| :: MoreBytes(top[i], top[j]);
    assert forall d, t | entitled(d) && d !in top && t in top :: MoreBytes(t, d);
  }
}
