/** Resources fetched more than once: under one URL, or under several that look like one
    file. */
module Duplicates {
  import opened Wrappers
  import opened Strings
  import opened Ranking
  import opened Tallies
  import opened Resources

  datatype Key = ByUrl(url: string) | ByNameAndSize(name: string, size: nat)

  datatype DuplicateEntry = DuplicateEntry(key: Key, urls: seq<string>, count: nat, bytesEach: nat, wasted: nat)

  datatype DuplicateResources = DuplicateResources(exactUrl: seq<DuplicateEntry>, likelySameFile: seq<DuplicateEntry>,
                                                   wasted: nat)

  const TOP: nat := 10

  predicate MoreWasted(a: DuplicateEntry, b: DuplicateEntry) { a.wasted >= b.wasted }

  lemma LexRanks()
    ensures Ranks(LexLe)
  {
    forall a, b
      ensures LexLe(a, b) || LexLe(b, a)
    {
      LexTotal(a, b);
    }
    forall a, b, c | LexLe(a, b) && LexLe(b, c)
      ensures LexLe(a, c)
    {
      LexTransitive(a, b, c);
    }
  }

  // ---------------------------------------------------------------- the two keys

  function UrlKey(r: Resource): Option<Key> { Some(ByUrl(r.url)) }

  /** The part of a URL before any query or fragment. */
  function PathOf(url: string): string { Before(Before(url, '?'), '#') }

  /** The file name of a URL: nothing for a path ending in a slash, or without any. */
  function UrlBasename(url: string): Option<string> {
    var name := AfterLast(PathOf(url), '/');
    if name != "" && ':' !in name then Some(name) else None
  }

  /** Nothing in the name ends it. */
  predicate IsName(name: string) { name != "" && forall c | c in name :: c !in {'/', ':', '?', '#'} }

  /** The URL is `name`, after its last slash and before any query or fragment. */
  ghost predicate NamedBy(url: string, head: string, name: string, tail: string) {
    && url == head + name + tail
    && (head == "" || head[|head| - 1] == '/') && '?' !in head && '#' !in head
    && (tail == "" || tail[0] in {'?', '#'})
  }

  lemma PathIs(url: string, path: string)
    requires path <= url && '?' !in path && '#' !in path && (|path| < |url| ==> url[|path|] in {'?', '#'})
    ensures PathOf(url) == path
  {
    var q := Before(url, '?');
    BeforeKeeps(url, '?', path);
    assert |path| < |q| ==> q[|path|] == url[|path|];
    BeforeUnique(q, '#', path);
  }

  lemma PathFacts(url: string)
    ensures var path := PathOf(url);
            path <= url && '?' !in path && '#' !in path && (|path| < |url| ==> url[|path|] in {'?', '#'})
  {
    var q, path := Before(url, '?'), PathOf(url);
    assert |path| < |q| ==> q[|path|] == url[|path|];
    assert forall i | 0 <= i < |path| :: path[i] == q[i];
  }

  lemma NamedIsBasename(url: string, head: string, name: string, tail: string)
    requires IsName(name) && NamedBy(url, head, name, tail)
    ensures UrlBasename(url) == Some(name)
  {
    var path := head + name;
    assert path <= url && (tail != "" ==> url[|path|] == tail[0]);
    PathIs(url, path);
    AfterLastUnique(path, '/', head, name);
  }

  lemma PathSplits(url: string, path: string, name: string)
    requires path <= url && '?' !in path && '#' !in path && (|path| < |url| ==> url[|path|] in {'?', '#'})
    requires |name| <= |path| && name == path[|path| - |name|..]
    requires |name| < |path| ==> path[|path| - |name| - 1] == '/'
    ensures NamedBy(url, path[..|path| - |name|], name, url[|path|..])
    ensures forall c | c in name :: c in path
  {
    assert path == path[..|path| - |name|] + name && url == path + url[|path|..];
    assert forall c | c in path[..|path| - |name|] :: c in path;
  }

  lemma BasenameIsNamed(url: string)
    requires UrlBasename(url).Some?
    ensures var name := UrlBasename(url).value;
            IsName(name) && exists head, tail :: NamedBy(url, head, name, tail)
  {
    PathFacts(url);
    var path, name := PathOf(url), AfterLast(PathOf(url), '/');
    assert UrlBasename(url) == Some(name) && name != "" && ':' !in name && '/' !in name;
    hide Before, PathOf, AfterLast, UrlBasename, NamedBy;
    PathSplits(url, path, name);
  }

  /** The file name of a URL: what follows its last slash, up to the query or fragment. */
  lemma BasenameExactly(url: string, name: string)
    ensures UrlBasename(url) == Some(name) <==> IsName(name) && exists head, tail :: NamedBy(url, head, name, tail)
  {
    if UrlBasename(url) == Some(name) {
      BasenameIsNamed(url);
    }
    if IsName(name) {
      if head, tail :| NamedBy(url, head, name, tail) {
        NamedIsBasename(url, head, name, tail);
      }
    }
    hide UrlBasename, NamedBy;
  }

  /** Empty responses and URLs without a file name have no key in the second pass. */
  function NameKey(r: Resource): Option<Key> {
    if r.contentSize == 0 then None else
      match UrlBasename(r.url)
      case None => None
      case Some(name) => Some(ByNameAndSize(name, r.contentSize))
  }

  ghost predicate HasName(url: string, name: string) {
    IsName(name) && exists head, tail :: NamedBy(url, head, name, tail)
  }

  lemma NameKeyExactly(r: Resource, k: Key)
    ensures NameKey(r) == Some(k) <==> k.ByNameAndSize? && k.size == r.contentSize > 0 && HasName(r.url, k.name)
  {
    if k.ByNameAndSize? {
      BasenameExactly(r.url, k.name);
    }
    hide UrlBasename, IsName, NamedBy;
  }

  /** What both passes put together: the copies of one URL, and the responses with bytes that
      share their size and file name. */
  lemma CopiesExactly(rs: seq<Resource>, k: Key, r: Resource)
    ensures multiset(Group(rs, UrlKey, k))[r] == if k == ByUrl(r.url) then multiset(rs)[r] else 0
    ensures multiset(Group(rs, NameKey, k))[r]
            == if k.ByNameAndSize? && k.size == r.contentSize > 0 && HasName(r.url, k.name) then multiset(rs)[r] else 0
  {
    GroupCounts(rs, UrlKey, k, r);
    GroupCounts(rs, NameKey, k, r);
    hide NameKey, Group;
    NameKeyExactly(r, k);
  }

  // ---------------------------------------------------------------- the same URL

  function Sizes(g: seq<Resource>): seq<nat> { seq(|g|, i requires 0 <= i < |g| => g[i].contentSize) }

  function Sum(sizes: seq<nat>): nat { if sizes == [] then 0 else Sum(sizes[..|sizes| - 1]) + sizes[|sizes| - 1] }

  function SizeOf(r: Resource): nat { r.contentSize }

  /** The size of the largest copy. */
  function Largest(g: seq<Resource>): (m: nat)
    ensures forall r | r in g :: r.contentSize <= m
    ensures g != [] ==> exists r :: r in g && r.contentSize == m
  {
    if g == [] then 0 else
      var m, last := Largest(g[..|g| - 1]), g[|g| - 1];
      if last.contentSize >= m then last.contentSize else m
  }

  predicate AtLeast(a: nat, b: nat) { a >= b }

  lemma SumWithout(a: seq<nat>, j: nat)
    requires j < |a|
    ensures var rest := a[..j] + a[j + 1..];
            Sum(a) == a[j] + Sum(rest) && multiset(rest) == multiset(a) - multiset{a[j]}
  {
    assert a == a[..j] + [a[j]] + a[j + 1..];
    SumAppends(a[..j] + [a[j]], a[j + 1..]);
    SumAppends(a[..j], [a[j]]);
    SumAppends(a[..j], a[j + 1..]);
    assert Sum([a[j]]) == a[j] by {
      assert [a[j]][..0] == [];
    }
  }

  lemma {:induction false} SumOfPermutation(a: seq<nat>, b: seq<nat>)
    requires multiset(a) == multiset(b)
    ensures Sum(a) == Sum(b)
    decreases |a|
  {
    SameElements(a, b);
    if a != [] {
      assert a[0] in b;
      var j :| 0 <= j < |b| && b[j] == a[0];
      SumWithout(a, 0);
      SumWithout(b, j);
      hide Sum;
      SumOfPermutation(a[..0] + a[1..], b[..j] + b[j + 1..]);
    }
  }

  lemma {:induction false} SumAppends(a: seq<nat>, b: seq<nat>)
    ensures Sum(a + b) == Sum(a) + Sum(b)
  {
    if b != [] {
      var n := |b| - 1;
      assert (a + b)[..|a| + n] == a + b[..n];
      SumAppends(a, b[..n]);
    } else {
      assert a + b == a;
    }
  }

  /** What the copies of one URL cost beyond the largest of them. */
  ghost function UrlWaste(rs: seq<Resource>, k: Key): int {
    Sum(Sizes(Group(rs, UrlKey, k))) - Largest(Group(rs, UrlKey, k))
  }

  lemma FirstIsLargest(g: seq<Resource>, sizes: seq<nat>)
    requires g != [] && Ordered(sizes, AtLeast) && forall x :: x in sizes <==> x in Sizes(g)
    ensures sizes != [] && sizes[0] == Largest(g)
  {
    assert Sizes(g)[0] in sizes;
    assert sizes[0] in Sizes(g);
    var r :| r in g && r.contentSize == Largest(g);
    var i :| 0 <= i < |g| && g[i] == r;
    assert Sizes(g)[i] in sizes;
    hide Largest;
    var j :| 0 <= j < |sizes| && sizes[j] == Largest(g);
    assert AtLeast(sizes[0], sizes[j]);
  }

  lemma SortedSizes(sizes: seq<nat>) returns (sorted: seq<nat>)
    ensures sorted == Sort(sizes, AtLeast) && |sorted| == |sizes| && Ordered(sorted, AtLeast)
    ensures (forall x :: x in sorted <==> x in sizes) && Sum(sorted) == Sum(sizes)
  {
    assert Ranks(AtLeast);
    sorted := Sort(sizes, AtLeast);
    SortFacts(sizes, AtLeast);
    hide Sort, Sum, AtLeast, Ordered, Ranks;
    SameElements(sizes, sorted);
    SumOfPermutation(sizes, sorted);
  }

  /** Sorting the sizes: the first is the largest, and the rest is what is wasted. */
  lemma WasteIsTheRest(g: seq<Resource>)
    requires g != []
    ensures var sizes := Sort(Sizes(g), AtLeast);
            |sizes| == |g| && sizes[0] == Largest(g) && Sum(sizes[1..]) == Sum(Sizes(g)) - Largest(g)
  {
    var sizes := SortedSizes(Sizes(g));
    hide Sort, Sum, Largest, AtLeast, Ordered;
    FirstIsLargest(g, sizes);
    SumWithout(sizes, 0);
    assert sizes[..0] + sizes[1..] == sizes[1..];
  }

  /** An entry of the first list: a URL with at least two copies. */
  ghost predicate ExactEntry(rs: seq<Resource>, e: DuplicateEntry) {
    var copies := Group(rs, UrlKey, e.key);
    && |copies| >= 2 && e.key.ByUrl?
    && e == DuplicateEntry(e.key, [e.key.url], |copies|, Largest(copies), e.wasted)
    && e.wasted == UrlWaste(rs, e.key)
  }

  // ---------------------------------------------------------------- the same name and size

  ghost function UrlsOf(g: seq<Resource>): set<string> { set r | r in g :: r.url }

  /** Removes repeats that stand next to each other. */
  function Dedup(s: seq<string>): seq<string> {
    if |s| <= 1 then s
    else if s[|s| - 1] == s[|s| - 2] then Dedup(s[..|s| - 1])
    else Dedup(s[..|s| - 1]) + [s[|s| - 1]]
  }

  lemma DedupStep(rest: seq<string>, last: string)
    requires rest != []
    ensures Dedup(rest + [last]) == if last == rest[|rest| - 1] then Dedup(rest) else Dedup(rest) + [last]
  {
    assert (rest + [last])[..|rest|] == rest;
  }

  ghost predicate SameStrings(a: seq<string>, b: seq<string>) { forall x :: x in a <==> x in b }

  lemma DedupNext(rest: seq<string>, last: string, d: seq<string>)
    requires rest != [] && Ordered(rest + [last], LexLe)
    requires SameStrings(d, rest) && Distinct(d) && Ordered(d, LexLe)
    ensures var d' := if last == rest[|rest| - 1] then d else d + [last];
            SameStrings(d', rest + [last]) && Distinct(d') && Ordered(d', LexLe)
  {
    hide LexLe, Ordered, Distinct;
    if last == rest[|rest| - 1] {
      RepeatAddsNothing(rest, last);
    } else {
      LastIsNew(rest, last);
      AppendKeepsOrder(d, last);
    }
  }

  lemma {:induction false} DedupFacts(s: seq<string>)
    requires Ordered(s, LexLe)
    ensures SameStrings(Dedup(s), s)
    ensures Distinct(Dedup(s)) && Ordered(Dedup(s), LexLe)
  {
    if |s| > 1 {
      hide *;
      var n := |s| - 1;
      var rest, last := s[..n], s[n];
      assert s == rest + [last];
      DedupStep(rest, last);
      PrefixOrdered(rest, last);
      DedupFacts(rest);
      DedupNext(rest, last, Dedup(rest));
    }
  }

  lemma PrefixOrdered(s: seq<string>, last: string)
    requires Ordered(s + [last], LexLe)
    ensures Ordered(s, LexLe)
  {
    hide LexLe;
    forall i, j | 0 <= i <= j < |s|
      ensures LexLe(s[i], s[j])
    {
      assert (s + [last])[i] == s[i] && (s + [last])[j] == s[j];
    }
  }

  lemma RepeatAddsNothing(s: seq<string>, last: string)
    requires last in s
    ensures forall x :: x in s + [last] <==> x in s
  {
  }

  lemma LastIsNew(s: seq<string>, last: string)
    requires Ordered(s + [last], LexLe) && s != [] && last != s[|s| - 1]
    ensures forall x | x in s :: LexLe(x, last) && x != last
  {
    var n := |s|;
    var all := s + [last];
    hide LexLe;
    forall x | x in s
      ensures LexLe(x, last) && x != last
    {
      var i :| 0 <= i < n && s[i] == x;
      assert LexLe(all[i], all[n - 1]) && LexLe(all[i], all[n]) && LexLe(all[n - 1], all[n]);
      LexTotal(last, s[n - 1]);
    }
  }

  lemma AppendKeepsOrder(s: seq<string>, x: string)
    requires Ordered(s, LexLe) && Distinct(s) && forall y | y in s :: LexLe(y, x) && y != x
    ensures Ordered(s + [x], LexLe) && Distinct(s + [x])
  {
    LexTotal(x, x);
    hide LexLe;
  }

  lemma DistinctSize(s: seq<string>)
    requires Distinct(s)
    ensures |set x | x in s| == |s|
  {
    if s != [] {
      var n := |s| - 1;
      DistinctSize(s[..n]);
      assert s == s[..n] + [s[n]];
      assert (set x | x in s) == (set x | x in s[..n]) + {s[n]};
      assert s[n] !in s[..n];
    }
  }

  function AllUrls(g: seq<Resource>): seq<string> { seq(|g|, i requires 0 <= i < |g| => g[i].url) }

  function SortedUrls(g: seq<Resource>): seq<string> { Dedup(Sort(AllUrls(g), LexLe)) }

  lemma AllUrlsFacts(g: seq<Resource>)
    ensures forall u :: u in AllUrls(g) <==> u in UrlsOf(g)
  {
    forall u
      ensures u in AllUrls(g) <==> u in UrlsOf(g)
    {
      if u in UrlsOf(g) {
        var r :| r in g && r.url == u;
        var i :| 0 <= i < |g| && g[i] == r;
        assert AllUrls(g)[i] == u;
      }
    }
  }

  /** The urls of an entry: those of its group, each once, in order. */
  lemma SortedUrlsFacts(g: seq<Resource>)
    ensures var urls := SortedUrls(g);
            Distinct(urls) && Ordered(urls, LexLe) && (set u | u in urls) == UrlsOf(g) && |urls| == |UrlsOf(g)|
  {
    var sorted := Sort(AllUrls(g), LexLe);
    LexRanks();
    SortFacts(AllUrls(g), LexLe);
    DedupFacts(sorted);
    hide Sort, Dedup, LexLe, Ordered, Ranks;
    SameElements(AllUrls(g), sorted);
    AllUrlsFacts(g);
    DistinctSize(SortedUrls(g));
    hide AllUrls, UrlsOf, Distinct;
    assert (set u | u in SortedUrls(g)) == UrlsOf(g);
  }

  lemma SomeUrl(g: seq<Resource>)
    requires g != []
    ensures |UrlsOf(g)| >= 1
  {
    assert g[0] in g && g[0].url in UrlsOf(g);
  }

  /** The cost of all but one of `count` files. */
  function Excess(count: nat, size: nat): nat { if count == 0 then 0 else (count - 1) * size }

  /** All but one of the URLs that share a name and size. */
  ghost function NameWaste(rs: seq<Resource>, k: Key): nat {
    var urls := UrlsOf(Group(rs, NameKey, k));
    if k.ByUrl? || urls == {} then 0 else (|urls| - 1) * k.size
  }

  lemma ExcessIs(urls: set<string>, size: nat)
    ensures Excess(|urls|, size) == if urls == {} then 0 else (|urls| - 1) * size
  {
  }

  /** An entry of the second list: a name and size under at least two URLs. */
  ghost predicate SameFileEntry(rs: seq<Resource>, e: DuplicateEntry) {
    var copies := Group(rs, NameKey, e.key);
    && |UrlsOf(copies)| >= 2 && e.key.ByNameAndSize?
    && e == DuplicateEntry(e.key, SortedUrls(copies), |UrlsOf(copies)|, e.key.size, NameWaste(rs, e.key))
  }

  // ---------------------------------------------------------------- the two passes

  function ExactEntryOf(k: Key, copies: seq<Resource>): (entry: Option<DuplicateEntry>)
    requires k.ByUrl? && copies != []
    ensures entry.Some? ==> entry.value.key == k && |copies| >= 2
  {
    if |copies| < 2 then None else
      var sizes := Sort(Sizes(copies), AtLeast);
      WasteIsTheRest(copies);
      Some(DuplicateEntry(k, [k.url], |copies|, sizes[0], Sum(sizes[1..])))
  }

  function SameFileEntryOf(k: Key, copies: seq<Resource>): (entry: Option<DuplicateEntry>)
    requires k.ByNameAndSize?
    ensures entry.Some? ==> entry.value.key == k && |entry.value.urls| >= 2
  {
    var urls := SortedUrls(copies);
    if |urls| < 2 then None else Some(DuplicateEntry(k, urls, |urls|, k.size, Excess(|urls|, k.size)))
  }

  /** What each key of a pass contributes. */
  type Entries = m: map<Key, Option<DuplicateEntry>> | forall k | k in m && m[k].Some? :: m[k].value.key == k

  ghost predicate Listed(entries: Entries, e: DuplicateEntry) { e.key in entries && entries[e.key] == Some(e) }

  function WasteAt(entries: Entries, k: Key): nat {
    if k in entries && entries[k].Some? then entries[k].value.wasted else 0
  }

  /** The entries collected so far are those of the keys visited, and the waste is theirs. */
  ghost predicate Found(found: seq<DuplicateEntry>, wasted: int, entries: Entries, visited: set<Key>) {
    && Distinct(found)
    && (forall e :: e in found <==> Listed(entries, e) && e.key in visited)
    && wasted == SetSum(visited, k => WasteAt(entries, k))
  }

  lemma FoundNext(found: seq<DuplicateEntry>, wasted: int, entries: Entries, visited: set<Key>, k: Key)
    requires Found(found, wasted, entries, visited) && k in entries && k !in visited
    ensures Found(if entries[k].Some? then found + [entries[k].value] else found,
                  wasted + WasteAt(entries, k), entries, visited + {k})
  {
    SetSumTake(visited + {k}, k => WasteAt(entries, k), k);
    assert visited + {k} - {k} == visited;
    hide SetSum;
  }

  lemma TopOfFound(found: seq<DuplicateEntry>, wasted: int, entries: Entries)
    requires Found(found, wasted, entries, entries.Keys)
    ensures Top(Take(Sort(found, MoreWasted), TOP), e => Listed(entries, e), MoreWasted, TOP)
    ensures wasted == SetSum(entries.Keys, k => WasteAt(entries, k))
  {
    assert Ranks(MoreWasted);
    SortThenTake(found, e => Listed(entries, e), MoreWasted, TOP);
    hide Sort, Take, Top, SetSum;
  }

  /** The loop of either pass; a hash map is visited in any order. */
  method ListEntries(entries: Entries) returns (top: seq<DuplicateEntry>, wasted: nat)
    ensures Top(top, e => Listed(entries, e), MoreWasted, TOP)
    ensures wasted == SetSum(entries.Keys, k => WasteAt(entries, k))
  {
    var found: seq<DuplicateEntry> := [];
    wasted := 0;
    var todo := entries.Keys;
    ghost var visited: set<Key> := {};
    hide Top, SetSum;
    NoSum(entries);
    assert Found(found, wasted, entries, visited);
    hide Found;
    while todo != {}
      invariant visited + todo == entries.Keys && visited !! todo
      invariant Found(found, wasted, entries, visited)
    {
      var k :| k in todo;
      FoundNext(found, wasted, entries, visited, k);
      if entries[k].Some? {
        wasted := wasted + entries[k].value.wasted;
        found := found + [entries[k].value];
      }
      todo, visited := todo - {k}, visited + {k};
    }
    assert visited == entries.Keys;
    TopOfFound(found, wasted, entries);
    top := Take(Sort(found, MoreWasted), TOP);
  }

  lemma NoSum(entries: Entries)
    ensures SetSum({}, k => WasteAt(entries, k)) == 0
  {
  }

  lemma ExactEntryMeans(rs: seq<Resource>, k: Key)
    requires k.ByUrl? && Group(rs, UrlKey, k) != []
    ensures var o := ExactEntryOf(k, Group(rs, UrlKey, k));
            && (o.Some? ==> ExactEntry(rs, o.value) && o.value.key == k && o.value.wasted == UrlWaste(rs, k))
            && (o.None? ==> |Group(rs, UrlKey, k)| < 2 && UrlWaste(rs, k) == 0)
  {
    var g := Group(rs, UrlKey, k);
    WasteIsTheRest(g);
    hide Group, Sort, Largest, Sizes;
    if |g| < 2 {
      assert Sort(Sizes(g), AtLeast)[1..] == [];
    }
  }

  lemma SameFileEntryMeans(rs: seq<Resource>, k: Key)
    requires k.ByNameAndSize? && Group(rs, NameKey, k) != []
    ensures var o := SameFileEntryOf(k, Group(rs, NameKey, k));
            && (o.Some? ==> SameFileEntry(rs, o.value) && o.value.key == k && o.value.wasted == NameWaste(rs, k))
            && (o.None? ==> |UrlsOf(Group(rs, NameKey, k))| < 2 && NameWaste(rs, k) == 0)
  {
    SortedUrlsFacts(Group(rs, NameKey, k));
    SomeUrl(Group(rs, NameKey, k));
    ExcessIs(UrlsOf(Group(rs, NameKey, k)), k.size);
    assert Excess(1, k.size) == 0;
    hide Group, SortedUrls, UrlsOf, Excess;
  }

  /** The entries of a pass, over all its groups. */
  ghost predicate EntriesOf(entries: Entries, rs: seq<Resource>, key: Resource -> Option<Key>) {
    && entries.Keys == Keys(rs, key)
    && forall k | k in entries :: Group(rs, key, k) != []
  }

  lemma ListedExactly(rs: seq<Resource>, entries: Entries, e: DuplicateEntry)
    requires ExactEntries(entries, rs)
    ensures Listed(entries, e) <==> ExactEntry(rs, e)
  {
    GroupMembers(rs, UrlKey, e.key);
    if e.key in entries {
      ExactEntryMeans(rs, e.key);
    }
    hide Group, ExactEntryOf, UrlWaste, Largest;
  }

  lemma ListedSameFile(rs: seq<Resource>, entries: Entries, e: DuplicateEntry)
    requires SameFileEntries(entries, rs)
    ensures Listed(entries, e) <==> SameFileEntry(rs, e)
  {
    GroupMembers(rs, NameKey, e.key);
    assert UrlsOf([]) == {};
    if e.key in entries {
      SameFileEntryMeans(rs, e.key);
    }
    hide Group, SameFileEntryOf, NameWaste, UrlsOf, SortedUrls;
  }

  lemma TopSame(top: seq<DuplicateEntry>, entitled: DuplicateEntry -> bool, same: DuplicateEntry -> bool)
    requires Top(top, entitled, MoreWasted, TOP) && forall e :: entitled(e) <==> same(e)
    ensures Top(top, same, MoreWasted, TOP)
  {
  }

  ghost predicate ExactEntries(entries: Entries, rs: seq<Resource>) {
    && EntriesOf(entries, rs, UrlKey)
    && forall k | k in entries :: k.ByUrl? && entries[k] == ExactEntryOf(k, Group(rs, UrlKey, k))
  }

  lemma TopExact(rs: seq<Resource>, entries: Entries, top: seq<DuplicateEntry>)
    requires ExactEntries(entries, rs) && Top(top, e => Listed(entries, e), MoreWasted, TOP)
    ensures Top(top, e => ExactEntry(rs, e), MoreWasted, TOP)
  {
    forall e
      ensures Listed(entries, e) <==> ExactEntry(rs, e)
    {
      ListedExactly(rs, entries, e);
    }
    hide Top, Listed, ExactEntry;
    TopSame(top, e => Listed(entries, e), e => ExactEntry(rs, e));
  }

  lemma ExactWaste(rs: seq<Resource>, entries: Entries)
    requires ExactEntries(entries, rs)
    ensures SetSum(entries.Keys, k => WasteAt(entries, k)) == SetSum(Keys(rs, UrlKey), k => UrlWaste(rs, k))
  {
    forall k | k in entries
      ensures WasteAt(entries, k) == UrlWaste(rs, k)
    {
      ExactEntryMeans(rs, k);
    }
    hide WasteAt, UrlWaste, SetSum;
    SetSumSame(entries.Keys, k => WasteAt(entries, k), k => UrlWaste(rs, k));
  }

  method GroupExact(rs: seq<Resource>) returns (entries: Entries)
    ensures ExactEntries(entries, rs)
  {
    hide Grouped, Group, ExactEntryOf;
    var byUrl := GroupBy(rs, UrlKey);
    GroupKeys(byUrl, rs, UrlKey);
    assert forall k | k in byUrl :: k.ByUrl?;
    hide Keys;
    entries := map k | k in byUrl :: ExactEntryOf(k, byUrl[k]);
  }

  method ExactUrls(rs: seq<Resource>) returns (exact: seq<DuplicateEntry>, wasted: nat)
    ensures Top(exact, e => ExactEntry(rs, e), MoreWasted, TOP)
    ensures wasted == SetSum(Keys(rs, UrlKey), k => UrlWaste(rs, k))
  {
    var entries := GroupExact(rs);
    hide ExactEntries, ExactEntry, UrlWaste, Listed, Top, SetSum, WasteAt, Keys;
    exact, wasted := ListEntries(entries);
    TopExact(rs, entries, exact);
    ExactWaste(rs, entries);
  }

  ghost predicate SameFileEntries(entries: Entries, rs: seq<Resource>) {
    && EntriesOf(entries, rs, NameKey)
    && forall k | k in entries :: k.ByNameAndSize? && entries[k] == SameFileEntryOf(k, Group(rs, NameKey, k))
  }

  lemma TopSameFile(rs: seq<Resource>, entries: Entries, top: seq<DuplicateEntry>)
    requires SameFileEntries(entries, rs) && Top(top, e => Listed(entries, e), MoreWasted, TOP)
    ensures Top(top, e => SameFileEntry(rs, e), MoreWasted, TOP)
  {
    forall e
      ensures Listed(entries, e) <==> SameFileEntry(rs, e)
    {
      ListedSameFile(rs, entries, e);
    }
    hide Top, Listed, SameFileEntry;
    TopSame(top, e => Listed(entries, e), e => SameFileEntry(rs, e));
  }

  lemma SameFileWaste(rs: seq<Resource>, entries: Entries)
    requires SameFileEntries(entries, rs)
    ensures SetSum(entries.Keys, k => WasteAt(entries, k)) == SetSum(Keys(rs, NameKey), k => NameWaste(rs, k))
  {
    forall k | k in entries
      ensures WasteAt(entries, k) == NameWaste(rs, k)
    {
      SameFileEntryMeans(rs, k);
    }
    hide WasteAt, NameWaste, SetSum;
    SetSumSame(entries.Keys, k => WasteAt(entries, k), k => NameWaste(rs, k));
  }

  lemma NameKeysOnly(rs: seq<Resource>)
    ensures forall k | k in Keys(rs, NameKey) :: k.ByNameAndSize?
  {
  }

  method GroupSameFile(rs: seq<Resource>) returns (entries: Entries)
    ensures SameFileEntries(entries, rs)
  {
    hide Grouped, Group, SameFileEntryOf, Keys, NameKey;
    var byNameSize := GroupBy(rs, NameKey);
    GroupKeys(byNameSize, rs, NameKey);
    NameKeysOnly(rs);
    entries := map k | k in byNameSize :: SameFileEntryOf(k, byNameSize[k]);
  }

  method LikelySameFile(rs: seq<Resource>) returns (likely: seq<DuplicateEntry>, wasted: nat)
    ensures Top(likely, e => SameFileEntry(rs, e), MoreWasted, TOP)
    ensures wasted == SetSum(Keys(rs, NameKey), k => NameWaste(rs, k))
  {
    var entries := GroupSameFile(rs);
    hide SameFileEntries, SameFileEntry, NameWaste, Listed, Top, SetSum, WasteAt, Keys;
    likely, wasted := ListEntries(entries);
    TopSameFile(rs, entries, likely);
    SameFileWaste(rs, entries);
  }

  // ---------------------------------------------------------------- the whole report

  lemma {:induction false} GroupTotal(rs: seq<Resource>, k: Key)
    ensures Sum(Sizes(Group(rs, UrlKey, k))) == Share(rs, UrlKey, SizeOf, k)
  {
    if rs != [] {
      var n := |rs| - 1;
      var before, after := Sizes(Group(rs[..n], UrlKey, k)), Sizes(Group(rs, UrlKey, k));
      GroupTotal(rs[..n], k);
      if UrlKey(rs[n]) == Some(k) {
        assert after == before + [rs[n].contentSize];
        assert after[..|before|] == before;
      } else {
        assert after == before;
      }
    }
  }

  ghost function LargestCopy(rs: seq<Resource>, k: Key): nat { Largest(Group(rs, UrlKey, k)) }

  /** First pass: all the bytes but one largest copy of each URL. */
  lemma UrlWasteAddsUp(rs: seq<Resource>)
    ensures SetSum(Keys(rs, UrlKey), k => UrlWaste(rs, k))
            == Keyed(rs, UrlKey, SizeOf) - SetSum(Keys(rs, UrlKey), k => LargestCopy(rs, k))
  {
    var waste, largest := (k: Key) => UrlWaste(rs, k), (k: Key) => LargestCopy(rs, k) as int;
    var share := (k: Key) => Share(rs, UrlKey, SizeOf, k) as int;
    forall k
      ensures waste(k) == share(k) - largest(k)
    {
      GroupTotal(rs, k);
    }
    SetSumMinus(Keys(rs, UrlKey), waste, share, largest);
    SharesAddUp(rs, UrlKey, SizeOf);
    hide *;
  }

  /** The two lists hold the most wasteful entries. Whatever they are cut to, the waste is
      complete: all bytes but one largest copy of each URL, and all but one file of each name
      and size. (Every resource has a URL, so `Keyed` sums all of them.) */
  ghost predicate Reports(rs: seq<Resource>, d: DuplicateResources) {
    && Top(d.exactUrl, e => ExactEntry(rs, e), MoreWasted, TOP)
    && Top(d.likelySameFile, e => SameFileEntry(rs, e), MoreWasted, TOP)
    && d.wasted == Keyed(rs, UrlKey, SizeOf) - SetSum(Keys(rs, UrlKey), k => LargestCopy(rs, k))
                   + SetSum(Keys(rs, NameKey), k => NameWaste(rs, k))
  }

  method BuildDuplicateResources(rs: seq<Resource>) returns (d: DuplicateResources)
    ensures Reports(rs, d)
  {
    var exact, wastedExact := ExactUrls(rs);
    var likely, wastedLikely := LikelySameFile(rs);
    UrlWasteAddsUp(rs);
    d := DuplicateResources(exact, likely, wastedExact + wastedLikely);
    hide ExactEntry, SameFileEntry, Top, Keyed, SetSum, Keys, UrlWaste, NameWaste, LargestCopy;
  }

  /** At most ten entries, the most wasteful first, and none left out wastes more. */
  ghost predicate MostWasteful(top: seq<DuplicateEntry>, entitled: DuplicateEntry -> bool) {
    && |top| <= 10
    && (forall i, j | 0 <= i <= j < |top| :: top[i].wasted >= top[j].wasted)
    && (forall e | e in top :: entitled(e))
    && (forall e | entitled(e) && e !in top :: |top| == 10 && forall t | t in top :: t.wasted >= e.wasted)
  }

  lemma TopIsMostWasteful(top: seq<DuplicateEntry>, entitled: DuplicateEntry -> bool)
    requires Top(top, entitled, MoreWasted, TOP)
    ensures MostWasteful(top, entitled)
  {
    assert forall i, j | 0 <= i <= j < |top| :: MoreWasted(top[i], top[j]);
    assert forall e, t | entitled(e) && e !in top && t in top :: MoreWasted(t, e);
  }

  /** Both lists of every report. */
  lemma ListsRank(rs: seq<Resource>, d: DuplicateResources)
    requires Reports(rs, d)
    ensures MostWasteful(d.exactUrl, e => ExactEntry(rs, e))
    ensures MostWasteful(d.likelySameFile, e => SameFileEntry(rs, e))
  {
    hide Top, MostWasteful, ExactEntry, SameFileEntry;
    TopIsMostWasteful(d.exactUrl, e => ExactEntry(rs, e));
    TopIsMostWasteful(d.likelySameFile, e => SameFileEntry(rs, e));
  }
}
