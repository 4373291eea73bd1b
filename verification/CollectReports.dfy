/** What a collection reports, in terms of the events it handled: marks, the document, and
    the resource list. */
module CollectReports {
  import opened Wrappers
  import opened Strings
  import opened Collect
  import opened CollectLaws

  // ---------------------------------------------------------------- what is reported

  /** The timestamp of the first mark of this name among the first `k` events. */
  ghost predicate FirstMark(events: seq<Arrival>, k: nat, name: string, o: Option<real>)
    requires k <= |events|
  {
    if o.None? then forall j | 0 <= j < k :: !IsMark(events[j].event, name)
    else exists j | 0 <= j < k :: MarkAt(events, j, name, o.value)
  }

  ghost predicate MarkAt(events: seq<Arrival>, j: int, name: string, ts: real)
    requires 0 <= j < |events|
  {
    IsMark(events[j].event, name) && events[j].event.ts == ts && forall i | 0 <= i < j :: !IsMark(events[i].event, name)
  }

  predicate FromACache(r: Response) {
    r.fromDisk == Some(true) || r.fromWorker == Some(true) || r.fromPrefetch == Some(true)
  }

  /** A real Document response below 400, with timing or from a cache. */
  predicate Qualifies(e: Event) {
    && e.Received? && IsRealResource(e.response.url) && e.response.document
    && e.response.status % 0x1_0000_0000 < 400
    && (e.response.timing.Some? || FromACache(e.response))
  }

  /** What such a response says about the document. */
  predicate Says(r: Response, d: DocumentTiming) {
    && d.url == r.url && d.status == r.status % 0x1_0000_0000 && (d.fromCache <==> FromACache(r))
    && d.protocol == (if r.protocol.Some? then r.protocol.value else "")
    && match r.timing
       case None => (d.dnsMs, d.tcpMs, d.tlsMs, d.ttfbMs) == (0, 0, 0, 0)
       case Some(t) =>
         && IsPhase(d.dnsMs, t.dnsStart, t.dnsEnd) && IsPhase(d.tcpMs, t.connectStart, t.connectEnd)
         && IsPhase(d.tlsMs, t.sslStart, t.sslEnd) && IsPhase(d.ttfbMs, t.sendStart, t.headersEnd)
  }

  /** What one event says about the landing document. */
  function TimingOf(e: Event): (o: Option<DocumentTiming>)
    ensures o.Some? <==> Qualifies(e)
    ensures o.Some? ==> Says(e.response, o.value)
  {
    if e.Received? && IsRealResource(e.response.url) && e.response.document && AsU32(e.response.status) < 400 then
      var r := e.response;
      var s := AsU32(r.status);
      if r.timing.Some? then
        var t := r.timing.value;
        PhaseIs(t.dnsStart, t.dnsEnd);
        PhaseIs(t.connectStart, t.connectEnd);
        PhaseIs(t.sslStart, t.sslEnd);
        PhaseIs(t.sendStart, t.headersEnd);
        Some(BuildDocumentTiming(r.url, s, FromCache(r), UnwrapOr(r.protocol, ""), t))
      else if FromCache(r) then Some(DocumentTiming(r.url, s, true, UnwrapOr(r.protocol, ""), 0, 0, 0, 0))
      else None
    else None
  }

  ghost predicate LastDocument(events: seq<Arrival>, k: nat, o: Option<DocumentTiming>)
    requires k <= |events|
  {
    if o.None? then forall j | 0 <= j < k :: TimingOf(events[j].event).None?
    else exists j | 0 <= j < k :: DocumentAt(events, k, j, o)
  }

  ghost predicate DocumentAt(events: seq<Arrival>, k: nat, j: int, o: Option<DocumentTiming>)
    requires 0 <= j < k <= |events|
  {
    TimingOf(events[j].event) == o && forall i | j < i < k :: TimingOf(events[i].event).None?
  }

  lemma FirstMarkNext(events: seq<Arrival>, k: nat, name: string, o: Option<real>)
    requires k < |events| && FirstMark(events, k, name, o)
    ensures FirstMark(events, k + 1, name,
                      if IsMark(events[k].event, name) then GetOrInsert(o, events[k].event.ts) else o)
  {
    if o.None? && IsMark(events[k].event, name) {
      assert MarkAt(events, k, name, events[k].event.ts);
    } else if o.Some? {
      var j :| 0 <= j < k && MarkAt(events, j, name, o.value);
      assert MarkAt(events, j, name, o.value);
    }
  }

  lemma LastDocumentNext(events: seq<Arrival>, k: nat, o: Option<DocumentTiming>)
    requires k < |events| && LastDocument(events, k, o)
    ensures LastDocument(events, k + 1, if TimingOf(events[k].event).Some? then TimingOf(events[k].event) else o)
  {
    hide TimingOf;
    if TimingOf(events[k].event).Some? {
      assert DocumentAt(events, k + 1, k, TimingOf(events[k].event));
    } else if o.Some? {
      var j :| 0 <= j < k && DocumentAt(events, k, j, o);
      assert DocumentAt(events, k + 1, j, o);
    }
  }

  /** What the loop knows is what the handled events said. */
  ghost predicate Reported(events: seq<Arrival>, k: nat, c: Core)
    requires k <= |events|
  {
    && FirstMark(events, k, "init", c.initTs)
    && FirstMark(events, k, "firstContentfulPaint", c.fcpTs)
    && FirstMark(events, k, "DOMContentLoaded", c.dclTs)
    && FirstMark(events, k, "load", c.loadTs)
    && (c.loadAt.Some? <==> c.loadTs.Some?)
    && (c.idleAt.Some? <==> exists j | 0 <= j < k :: IsMark(events[j].event, "networkIdle"))
    && LastDocument(events, k, c.document)
  }

  lemma HandledCore(l: Loop, k: nat, event: Event, t: nat)
    requires Handle(l, k, event, t).Ok?
    ensures var c := Handle(l, k, event, t).value.core;
            && (event.Lifecycle? ==> c == OnLifecycle(l.core, event.name, event.ts, t))
            && (!event.Lifecycle? ==> c.(document := l.core.document, pending := l.core.pending) == l.core)
            && c.document == (if TimingOf(event).Some? then TimingOf(event) else l.core.document)
  {
    hide Position, BuildDocumentTiming, IsRealResource, SwapRemove;
  }

  lemma HandleKeepsReported(events: seq<Arrival>, l: Loop, k: nat, t: nat)
    requires k < |events| && Reported(events, k, l.core) && Handle(l, k, events[k].event, t).Ok?
    ensures Reported(events, k + 1, Handle(l, k, events[k].event, t).value.core)
  {
    HandledCore(l, k, events[k].event, t);
    FirstMarkNext(events, k, "init", l.core.initTs);
    FirstMarkNext(events, k, "firstContentfulPaint", l.core.fcpTs);
    FirstMarkNext(events, k, "DOMContentLoaded", l.core.dclTs);
    FirstMarkNext(events, k, "load", l.core.loadTs);
    LastDocumentNext(events, k, l.core.document);
    hide Handle, FirstMark, LastDocument, TimingOf;
  }

  lemma {:induction false} RunKeepsReported(cfg: Config, l: Loop, events: seq<Arrival>, k: nat)
    requires k <= |events| && Reported(events, k, l.core)
    ensures var e := Run(cfg, l, events, k);
            e.Settled? ==> k <= e.used <= |events| && Reported(events, e.used, e.last.core)
    decreases |events| - k
  {
    hide *;
    RunUnfolds(cfg, l, events, k);
    if StopAt(cfg, l) > l.now && k < |events| && !SleepFirst(cfg, l, events[k]) {
      var t := DeliveredAt(l, events[k]);
      if Handle(l, k, events[k].event, t).Ok? {
        HandleKeepsReported(events, l, k, t);
        RunKeepsReported(cfg, Handle(l, k, events[k].event, t).value, events, k + 1);
      }
    }
  }

  /** Every collection reports the first mark of each kind and the last landing document among
      the events it handled. */
  lemma MarksAndDocument(patterns: seq<string>, start: nat, timeout: nat, waitUntilLoad: bool, events: seq<Arrival>)
    ensures var e := Run(Config(start + timeout, waitUntilLoad), Start(patterns, start), events, 0);
            e.Settled? ==> e.used <= |events| && Reported(events, e.used, e.last.core)
  {
    RunKeepsReported(Config(start + timeout, waitUntilLoad), Start(patterns, start), events, 0);
  }

  // ---------------------------------------------------------------- redirects among the documents

  predicate IsRedirect(d: DocumentTiming) { 300 <= d.status < 400 }

  /** The documented landing page: what a Document response says, unless it is a redirect. */
  function LandingOf(e: Event): Option<DocumentTiming> {
    if TimingOf(e).Some? && !IsRedirect(TimingOf(e).value) then TimingOf(e) else None
  }

  ghost predicate LastLanding(events: seq<Arrival>, k: nat, o: Option<DocumentTiming>)
    requires k <= |events|
  {
    if o.None? then forall j | 0 <= j < k :: LandingOf(events[j].event).None?
    else exists j | 0 <= j < k :: LandingAt(events, k, j, o)
  }

  ghost predicate LandingAt(events: seq<Arrival>, k: nat, j: int, o: Option<DocumentTiming>)
    requires 0 <= j < k <= |events|
  {
    LandingOf(events[j].event) == o && forall i | j < i < k :: LandingOf(events[i].event).None?
  }

  /** The last of the first `k` events that says something about the document is a redirect. */
  ghost predicate EndsOnRedirect(events: seq<Arrival>, k: nat)
    requires k <= |events|
  {
    exists j | 0 <= j < k :: RedirectAt(events, k, j)
  }

  ghost predicate RedirectAt(events: seq<Arrival>, k: nat, j: int)
    requires 0 <= j < k <= |events|
  {
    var o := TimingOf(events[j].event);
    o.Some? && IsRedirect(o.value) && forall i | j < i < k :: TimingOf(events[i].event).None?
  }

  ghost predicate ReportsRedirect(c: Core) { c.document.Some? && IsRedirect(c.document.value) }

  lemma DocumentIsLast(events: seq<Arrival>, k: nat, o: Option<DocumentTiming>)
    requires k <= |events| && LastDocument(events, k, o)
    ensures o.Some? && IsRedirect(o.value) <==> EndsOnRedirect(events, k)
  {
    hide TimingOf, IsRedirect;
    if o.Some? {
      var j :| 0 <= j < k && DocumentAt(events, k, j, o);
      if IsRedirect(o.value) {
        assert RedirectAt(events, k, j);
      }
      if EndsOnRedirect(events, k) {
        var i :| 0 <= i < k && RedirectAt(events, k, i);
        assert i == j;
      }
    }
  }

  lemma LandsExactlyWhen(events: seq<Arrival>, k: nat, o: Option<DocumentTiming>)
    requires k <= |events| && LastDocument(events, k, o)
    ensures LastLanding(events, k, o) <==> !(o.Some? && IsRedirect(o.value))
  {
    hide TimingOf, IsRedirect;
    if o.Some? {
      var j :| 0 <= j < k && DocumentAt(events, k, j, o);
      if !IsRedirect(o.value) {
        assert LandingAt(events, k, j, o);
      }
    }
  }

  /** A collection reports a redirect as its document if and only if a redirect was the last
      document it handled; and exactly otherwise it reports the landing page. */
  lemma RedirectReportedExactlyWhen(patterns: seq<string>, start: nat, timeout: nat, waitUntilLoad: bool,
                                    events: seq<Arrival>)
    ensures var e := Run(Config(start + timeout, waitUntilLoad), Start(patterns, start), events, 0);
            e.Settled? ==>
              && e.used <= |events|
              && (ReportsRedirect(e.last.core) <==> EndsOnRedirect(events, e.used))
              && (LastLanding(events, e.used, e.last.core.document) <==> !EndsOnRedirect(events, e.used))
  {
    var e := Run(Config(start + timeout, waitUntilLoad), Start(patterns, start), events, 0);
    MarksAndDocument(patterns, start, timeout, waitUntilLoad, events);
    hide Run, LastDocument, LastLanding, EndsOnRedirect;
    if e.Settled? {
      DocumentIsLast(events, e.used, e.last.core.document);
      LandsExactlyWhen(events, e.used, e.last.core.document);
    }
  }

  /** The events are due at different instants. */
  ghost predicate Spread(start: nat, events: seq<Arrival>) {
    forall i, j | 0 <= i < j < |events| :: Max(start, events[i].at) < Max(start, events[j].at)
  }

  /** No event serves a pattern that is still pending. */
  ghost predicate Unserved(events: seq<Arrival>, l: Loop) {
    && l.core.pending != []
    && forall a, p | a in events && a.event.Received? && p in l.core.pending :: !Contains(a.event.response.url, p.text)
  }

  lemma UnservedNext(cfg: Config, events: seq<Arrival>, l: Loop, k: nat, t: nat)
    requires k < |events| && Unserved(events, l)
    ensures StopAt(cfg, l) == cfg.deadline
    ensures var r := Handle(l, k, events[k].event, t); r.Ok? && r.value.now == t && Unserved(events, r.value)
  {
    var pending, a := l.core.pending, events[k];
    if a.event.Received? {
      forall i | 0 <= i < |pending|
        ensures !Contains(a.event.response.url, pending[i].text)
      {
        assert pending[i] in pending;
      }
    }
    hide Position, Contains, OnDocument, IsRealResource, SwapRemove;
  }

  /** A collection that waits for what never comes handles what is due before its deadline. */
  lemma {:induction false} RunsToDeadline(cfg: Config, events: seq<Arrival>, l: Loop, k: nat, n: nat)
    requires k <= n <= |events| && Unserved(events, l) && l.now < cfg.deadline
    requires forall i | k <= i < n :: events[i].at < cfg.deadline
    requires n < |events| ==> events[n].at >= cfg.deadline && !events[n].wins
    ensures Run(cfg, l, events, k).Settled? && Run(cfg, l, events, k).used == n
    decreases n - k
  {
    RunUnfolds(cfg, l, events, k);
    hide Run, Handle, StopAt, Unserved;
    if k < |events| {
      UnservedNext(cfg, events, l, k, DeliveredAt(l, events[k]));
      if k < n {
        RunsToDeadline(cfg, events, Handle(l, k, events[k].event, DeliveredAt(l, events[k])).value, k + 1, n);
      }
    }
  }

  /** Longer than every URL. */
  function LongPattern(events: seq<Arrival>): (p: string)
    ensures p != [] && forall a | a in events && a.event.Received? :: |a.event.response.url| < |p|
  {
    if events == [] then "x" else
      var p := LongPattern(events[..|events| - 1]);
      var last := events[|events| - 1].event;
      if last.Received? then p + last.response.url else p
  }

  lemma LongIsUnserved(events: seq<Arrival>, start: nat)
    ensures Unserved(events, Start([LongPattern(events)], start))
  {
    var pending := Enumerate([LongPattern(events)]);
    assert pending == [Pattern(0, LongPattern(events))];
    hide LongPattern;
  }

  ghost predicate CanReportRedirect(start: nat, waitUntilLoad: bool, events: seq<Arrival>) {
    exists patterns, timeout: nat :: ReportsWith(patterns, start, timeout, waitUntilLoad, events)
  }

  ghost predicate ReportsWith(patterns: seq<string>, start: nat, timeout: nat, waitUntilLoad: bool,
                              events: seq<Arrival>) {
    var e := Run(Config(start + timeout, waitUntilLoad), Start(patterns, start), events, 0);
    e.Settled? && ReportsRedirect(e.last.core)
  }

  predicate SaysRedirect(e: Event) { TimingOf(e).Some? && IsRedirect(TimingOf(e).value) }

  /** A deadline right after event `j`. */
  function JustAfter(start: nat, events: seq<Arrival>, j: nat): nat
    requires j < |events|
  {
    Max(start, events[j].at) + 1
  }

  lemma JustAfterSplits(start: nat, events: seq<Arrival>, j: nat)
    requires Spread(start, events) && Untied(events) && j < |events|
    ensures forall i | 0 <= i < j + 1 :: events[i].at < JustAfter(start, events, j)
    ensures j + 1 < |events| ==> events[j + 1].at >= JustAfter(start, events, j) && !events[j + 1].wins
  {
  }

  /** With the long pattern and a deadline right after event `j`, that is the last one handled. */
  lemma StopsRightAfter(start: nat, waitUntilLoad: bool, events: seq<Arrival>, j: nat)
    requires Spread(start, events) && Untied(events) && j < |events|
    ensures JustAfter(start, events, j) > start
    ensures var e := Run(Config(JustAfter(start, events, j), waitUntilLoad), Start([LongPattern(events)], start),
                         events, 0);
            e.Settled? && e.used == j + 1
  {
    assert Start([LongPattern(events)], start).now == start;
    JustAfterSplits(start, events, j);
    hide Run, Start, LongPattern, Unserved, Spread, Untied;
    LongIsUnserved(events, start);
    RunsToDeadline(Config(JustAfter(start, events, j), waitUntilLoad), events, Start([LongPattern(events)], start),
                   0, j + 1);
  }

  lemma EndsHere(events: seq<Arrival>, j: nat)
    requires j < |events| && SaysRedirect(events[j].event)
    ensures EndsOnRedirect(events, j + 1)
  {
    hide TimingOf, IsRedirect;
    assert RedirectAt(events, j + 1, j);
  }

  lemma CanReport(start: nat, waitUntilLoad: bool, events: seq<Arrival>, patterns: seq<string>, timeout: nat)
    requires var e := Run(Config(start + timeout, waitUntilLoad), Start(patterns, start), events, 0);
             e.Settled? && e.used <= |events| && EndsOnRedirect(events, e.used)
    ensures CanReportRedirect(start, waitUntilLoad, events)
  {
    hide Run, Start, EndsOnRedirect, ReportsRedirect, LastLanding;
    RedirectReportedExactlyWhen(patterns, start, timeout, waitUntilLoad, events);
    assert ReportsWith(patterns, start, timeout, waitUntilLoad, events);
  }

  lemma RedirectStopsHere(start: nat, waitUntilLoad: bool, events: seq<Arrival>, j: nat)
    requires Spread(start, events) && Untied(events) && j < |events| && SaysRedirect(events[j].event)
    ensures CanReportRedirect(start, waitUntilLoad, events)
  {
    hide *;
    StopsRightAfter(start, waitUntilLoad, events, j);
    EndsHere(events, j);
    CanReport(start, waitUntilLoad, events, [LongPattern(events)], JustAfter(start, events, j) - start);
  }

  /** Over events due at different instants and without ties, some request makes a collection
      report a redirect if and only if one of the events is a redirect that counts as a
      document. */
  lemma RedirectPossibleExactlyWhen(start: nat, waitUntilLoad: bool, events: seq<Arrival>)
    requires Spread(start, events) && Untied(events)
    ensures CanReportRedirect(start, waitUntilLoad, events)
      <==> exists j | 0 <= j < |events| :: SaysRedirect(events[j].event)
  {
    if j: nat :| j < |events| && SaysRedirect(events[j].event) {
      RedirectStopsHere(start, waitUntilLoad, events, j);
    }
    if CanReportRedirect(start, waitUntilLoad, events) {
      var patterns, timeout: nat :| ReportsWith(patterns, start, timeout, waitUntilLoad, events);
      RedirectReportedExactlyWhen(patterns, start, timeout, waitUntilLoad, events);
      var n := Run(Config(start + timeout, waitUntilLoad), Start(patterns, start), events, 0).used;
      hide Run, TimingOf, IsRedirect;
      var j :| 0 <= j < n && RedirectAt(events, n, j);
      assert SaysRedirect(events[j].event);
    }
  }

  const MOVED :=
    Arrival(10, false, Received(Response("1", "http://a/", 301, true, Some(true), None, None, None, None)))

  /** A run that does: the cached redirect is all it hears before its deadline. */
  lemma RedirectIsReported()
    ensures var e := Run(Config(1000, false), Start([], 0), [MOVED], 0);
            e.Settled? && ReportsRedirect(e.last.core) && e.last.core.document.value.status == 301
  {
    var cfg, l0 := Config(1000, false), Start([], 0);
    RunUnfolds(cfg, l0, [MOVED], 0);
    assert IsRealResource("http://a/") by { assert "http://a/"[0] == 'h'; }
    var l := Handle(l0, 0, MOVED.event, 10).value;
    assert l0.core.pending == [];
    assert l.core.document == Some(DocumentTiming("http://a/", 301, true, "", 0, 0, 0, 0));
    RunUnfolds(cfg, l, [MOVED], 1);
    hide Run;
  }

  // ---------------------------------------------------------------- real resources

  lemma SchemeIs(url: string, scheme: string)
    requires ':' !in scheme
    ensures scheme + ":" <= url <==> Before(url, ':') == scheme && |scheme| < |url|
  {
    if scheme + ":" <= url {
      assert url[|scheme|] == ':';
      BeforeUnique(url, ':', scheme);
    }
    if Before(url, ':') == scheme && |scheme| < |url| {
      assert url[..|scheme| + 1] == scheme + ":";
    }
  }

  /** Whether the URL starts with this scheme. */
  predicate HasScheme(url: string, scheme: string) { ':' in url && Before(url, ':') == scheme }

  lemma StartsWith(url: string, scheme: string, prefix: string)
    requires prefix == scheme + ":" && ':' !in scheme
    ensures prefix <= url <==> HasScheme(url, scheme)
  {
    SchemeIs(url, scheme);
    ColonWhen(url);
  }

  /** What comes before the first colon decides. */
  lemma RealExactlyWhen(url: string)
    ensures IsRealResource(url) <==>
              && !HasScheme(url, "data") && !HasScheme(url, "blob") && !HasScheme(url, "about")
              && !HasScheme(url, "chrome-extension") && !HasScheme(url, "moz-extension")
  {
    hide HasScheme;
    StartsWith(url, "data", "data:");
    StartsWith(url, "blob", "blob:");
    StartsWith(url, "about", "about:");
    StartsWith(url, "chrome-extension", "chrome-extension:");
    StartsWith(url, "moz-extension", "moz-extension:");
  }

  lemma ColonWhen(url: string)
    ensures ':' in url <==> |Before(url, ':')| < |url|
  {
    var before := Before(url, ':');
    if |before| == |url| {
      assert before == url;
    } else {
      assert url[|before|] == ':';
    }
  }

  // ---------------------------------------------------------------- the resource list

  predicate Responds(e: Event, id: string) { e.Received? && e.response.id == id && IsRealResource(e.response.url) }

  predicate Requests(e: Event, id: string) { e.Request? && e.id == id && IsRealResource(e.url) }

  /** The URL of a real request under this id; nothing for any other event. */
  function RequestUrl(e: Event, id: string): string { if Requests(e, id) then e.url else "" }

  /** Event `j` is the last of the first `k` that is a response under this id. */
  ghost predicate LastResponse(events: seq<Arrival>, k: nat, id: string, j: nat)
    requires k <= |events|
  {
    j < k && Responds(events[j].event, id) && forall i | j < i < k :: !Responds(events[i].event, id)
  }

  /** Event `j` is the first request under this id with a URL. */
  ghost predicate FirstRequest(events: seq<Arrival>, k: nat, id: string, j: nat, url: string)
    requires k <= |events|
  {
    && j < k && RequestUrl(events[j].event, id) == url != ""
    && forall i | 0 <= i < j :: RequestUrl(events[i].event, id) == ""
  }

  predicate RespondedAs(e: Event, entry: Recording) {
    e.Received? ==>
      var r := e.response;
      && entry.status == r.status % 0x1_0000_0000 && (entry.fromCache <==> FromACache(r))
      && entry.protocol == (if r.protocol.Some? then r.protocol.value else "")
      && (r.url != "" ==> entry.url == r.url)
  }

  ghost predicate StubOf(events: seq<Arrival>, k: nat, id: string, entry: Recording)
    requires k <= |events|
  {
    && entry == Recording(entry.url, 0, false, "")
    && if entry.url == "" then forall j | 0 <= j < k :: RequestUrl(events[j].event, id) == ""
       else exists j: nat :: FirstRequest(events, k, id, j, entry.url)
  }

  ghost predicate NoResponse(events: seq<Arrival>, k: nat, id: string)
    requires k <= |events|
  {
    forall j | 0 <= j < k :: !Responds(events[j].event, id)
  }

  /** The entry says what the last response said; without one it is a stub of the first request. */
  ghost predicate RecordedAs(events: seq<Arrival>, k: nat, id: string, entry: Recording)
    requires k <= |events|
  {
    && (forall j: nat | LastResponse(events, k, id, j) :: RespondedAs(events[j].event, entry))
    && (NoResponse(events, k, id) ==> StubOf(events, k, id, entry))
  }

  ghost predicate Mentioned(events: seq<Arrival>, k: nat, id: string)
    requires k <= |events|
  {
    exists j | 0 <= j < k :: Responds(events[j].event, id) || Requests(events[j].event, id)
  }

  lemma EntryNext(m: map<string, Recording>, events: seq<Arrival>, k: nat, id: string)
    requires k < |events| && m == Recorded(events, k)
    ensures var (m', event) := (Recorded(events, k + 1), events[k].event);
            && (Responds(event, id) ==> id in m' && RespondedAs(event, m'[id]))
            && (Requests(event, id) ==>
                  id in m' && var e := if id in m then m[id] else Recording("", 0, false, "");
                  m'[id] == if e.url == "" then e.(url := RequestUrl(event, id)) else e)
            && (!Responds(event, id) && !Requests(event, id) ==>
                  (id in m' <==> id in m) && (id in m ==> m'[id] == m[id]))
  {
    hide IsRealResource;
  }

  lemma StaysResponded(e: Event, before: Recording, entry: Recording)
    requires RespondedAs(e, before) && (entry == before || (before.url == "" && entry == before.(url := entry.url)))
    ensures RespondedAs(e, entry)
  {
  }

  lemma StubNext(events: seq<Arrival>, k: nat, id: string, before: Recording, entry: Recording)
    requires k < |events| && StubOf(events, k, id, before)
    requires entry == if before.url == "" then before.(url := RequestUrl(events[k].event, id)) else before
    ensures StubOf(events, k + 1, id, entry)
  {
    hide RequestUrl;
    if before.url != "" {
      var j: nat :| FirstRequest(events, k, id, j, before.url);
      assert FirstRequest(events, k + 1, id, j, before.url);
    } else if entry.url != "" {
      assert FirstRequest(events, k + 1, id, k, entry.url);
    }
  }

  /** An event that is no response under this id may fill in a URL. */
  lemma OtherKeeps(events: seq<Arrival>, k: nat, id: string, before: Recording, entry: Recording)
    requires k < |events| && !Responds(events[k].event, id) && RecordedAs(events, k, id, before)
    requires entry == if before.url == "" then before.(url := RequestUrl(events[k].event, id)) else before
    ensures RecordedAs(events, k + 1, id, entry)
  {
    hide Responds, RequestUrl, RespondedAs, StubOf;
    forall j: nat | LastResponse(events, k + 1, id, j)
      ensures RespondedAs(events[j].event, entry)
    {
      assert LastResponse(events, k, id, j);
      StaysResponded(events[j].event, before, entry);
    }
    if NoResponse(events, k + 1, id) {
      assert NoResponse(events, k, id);
      StubNext(events, k, id, before, entry);
    }
  }

  lemma ResponseKeeps(events: seq<Arrival>, k: nat, id: string, entry: Recording)
    requires k < |events| && Responds(events[k].event, id) && RespondedAs(events[k].event, entry)
    ensures RecordedAs(events, k + 1, id, entry)
  {
    hide Responds, RespondedAs, StubOf;
  }

  lemma NoneYet(events: seq<Arrival>, k: nat, id: string)
    requires k <= |events| && !Mentioned(events, k, id)
    ensures RecordedAs(events, k, id, Recording("", 0, false, ""))
  {
    hide RespondedAs, Responds, Requests;
  }

  /** A collection lists exactly the ids of the real requests and responses it handled, each as
      its last response said, or as a stub. */
  lemma {:induction false} RecordedMeans(events: seq<Arrival>, k: nat, id: string)
    requires k <= |events|
    ensures id in Recorded(events, k) <==> Mentioned(events, k, id)
    ensures id in Recorded(events, k) ==> RecordedAs(events, k, id, Recorded(events, k)[id])
    decreases k
  {
    if k > 0 {
      RecordedMeans(events, k - 1, id);
      EntryNext(Recorded(events, k - 1), events, k - 1, id);
      hide Recorded, RespondedAs, RecordedAs, Responds, Requests;
      var event, m, m' := events[k - 1].event, Recorded(events, k - 1), Recorded(events, k);
      assert Mentioned(events, k, id) <==> Mentioned(events, k - 1, id) || Responds(event, id) || Requests(event, id);
      hide Mentioned;
      if Responds(event, id) {
        ResponseKeeps(events, k - 1, id, m'[id]);
      } else if id in m' {
        if id !in m {
          NoneYet(events, k - 1, id);
        }
        OtherKeeps(events, k - 1, id, if id in m then m[id] else Recording("", 0, false, ""), m'[id]);
      }
    }
  }
}
