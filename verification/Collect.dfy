/** The event loops that collect a page load: exit policy, wait patterns, document
    timing. Times are whole milliseconds, handling an event takes none. */
module Collect {
  import opened Wrappers
  import opened Strings

  const POST_IDLE_GRACE := 500

  const QUIET_GRACE := 100

  /** Raw phase marks of a response, in milliseconds. */
  datatype Timing = Timing(dnsStart: real, dnsEnd: real, connectStart: real, connectEnd: real,
                           sslStart: real, sslEnd: real, sendStart: real, headersEnd: real)

  datatype DocumentTiming = DocumentTiming(url: string, status: nat, fromCache: bool, protocol: string,
                                           dnsMs: nat, tcpMs: nat, tlsMs: nat, ttfbMs: nat)

  datatype Response = Response(id: string, url: string, status: int, document: bool,
                               fromDisk: Option<bool>, fromWorker: Option<bool>, fromPrefetch: Option<bool>,
                               protocol: Option<string>, timing: Option<Timing>)

  /** `Request` and `Other` stand for the streams only the full loop listens to. */
  datatype Event =
    | Lifecycle(name: string, ts: real)
    | Received(response: Response)
    | Request(id: string, url: string)
    | Other

  /** An event, when it arrives, and whether it wins a tie with the expiring sleep. */
  datatype Arrival = Arrival(at: nat, wins: bool, event: Event)

  /** A requested pattern and its position in the request. */
  datatype Pattern = Pattern(index: nat, text: string)

  datatype Core = Core(document: Option<DocumentTiming>,
                       initTs: Option<real>, fcpTs: Option<real>, dclTs: Option<real>, loadTs: Option<real>,
                       loadAt: Option<nat>, idleAt: Option<nat>, pending: seq<Pattern>)

  /** The loop between two events. History: which event served which pattern. */
  datatype Loop = Loop(core: Core, now: nat, served: map<nat, nat>)

  datatype Exit =
    | Settled(last: Loop, at: nat, used: nat)
    | UpstreamFailure(status: int, url: string, failedAt: nat, seen: nat)

  datatype Config = Config(deadline: nat, waitUntilLoad: bool)

  // ---------------------------------------------------------------- pure helpers

  function CollectStopAt(deadline: nat, gateAt: Option<nat>, patternsPending: bool, lastEventAt: nat): nat {
    if gateAt.Some? && !patternsPending then
      Min(Min(deadline, gateAt.value + POST_IDLE_GRACE), Max(lastEventAt, gateAt.value) + QUIET_GRACE)
    else deadline
  }

  predicate IsRealResource(url: string) {
    !("data:" <= url || "blob:" <= url || "about:" <= url || "chrome-extension:" <= url || "moz-extension:" <= url)
  }

  /** A 64-bit status truncated to 32 bits. */
  function AsU32(status: int): nat { status % 0x1_0000_0000 }

  /** A float cast to u32: truncated, saturating at both ends. */
  function SaturatingU32(x: real): nat {
    if x <= 0.0 then 0 else Min(x.Floor, 0xFFFF_FFFF)
  }

  function PhaseMs(a: real, b: real): nat { SaturatingU32(b - a) }

  /** The whole milliseconds between two instants, none if it is not positive, at most 32 bits of them. */
  predicate IsPhase(ms: nat, a: real, b: real) {
    if b <= a then ms == 0
    else if b - a >= 4294967295.0 then ms == 4294967295
    else ms as real <= b - a < ms as real + 1.0
  }

  lemma PhaseIs(a: real, b: real)
    ensures IsPhase(PhaseMs(a, b), a, b)
  {
  }

  function GetOrInsert<T>(o: Option<T>, v: T): Option<T> { if o.Some? then o else Some(v) }

  function UnwrapOr<T>(o: Option<T>, default: T): T { if o.Some? then o.value else default }

  function FromCache(r: Response): bool {
    UnwrapOr(r.fromDisk, false) || UnwrapOr(r.fromWorker, false) || UnwrapOr(r.fromPrefetch, false)
  }

  function BuildDocumentTiming(url: string, status: nat, fromCache: bool, protocol: string, t: Timing): DocumentTiming {
    DocumentTiming(url, status, fromCache, protocol, PhaseMs(t.dnsStart, t.dnsEnd),
                   PhaseMs(t.connectStart, t.connectEnd),
                   PhaseMs(t.sslStart, t.sslEnd), PhaseMs(t.sendStart, t.headersEnd))
  }

  /** The position of the first pending pattern the URL contains, or the length. */
  function Position(pending: seq<Pattern>, url: string): (i: nat)
    ensures i <= |pending|
    ensures i < |pending| ==> Contains(url, pending[i].text)
    ensures forall j | 0 <= j < i :: !Contains(url, pending[j].text)
  {
    if pending == [] || Contains(url, pending[0].text) then 0 else 1 + Position(pending[1..], url)
  }

  function SwapRemove<T>(s: seq<T>, i: nat): seq<T>
    requires i < |s|
  {
    s[i := s[|s| - 1]][..|s| - 1]
  }

  // ---------------------------------------------------------------- what one event does

  function OnLifecycle(c: Core, name: string, ts: real, now: nat): Core {
    if name == "init" then c.(initTs := GetOrInsert(c.initTs, ts))
    else if name == "firstContentfulPaint" then c.(fcpTs := GetOrInsert(c.fcpTs, ts))
    else if name == "DOMContentLoaded" then c.(dclTs := GetOrInsert(c.dclTs, ts))
    else if name == "load" then c.(loadTs := GetOrInsert(c.loadTs, ts), loadAt := GetOrInsert(c.loadAt, now))
    else if name == "networkIdle" then c.(idleAt := GetOrInsert(c.idleAt, now))
    else c
  }

  /** The landing document: the last Document response below 400 with timing or from cache. */
  function OnDocument(document: Option<DocumentTiming>, r: Response): Option<DocumentTiming> {
    var s := AsU32(r.status);
    if !r.document || s >= 400 then document
    else if r.timing.Some? then
      Some(BuildDocumentTiming(r.url, s, FromCache(r), UnwrapOr(r.protocol, ""), r.timing.value))
    else if FromCache(r) then Some(DocumentTiming(r.url, s, true, UnwrapOr(r.protocol, ""), 0, 0, 0, 0))
    else document
  }

  /** Event number `k`, delivered at `now`; an error ends the collection. */
  function Handle(l: Loop, k: nat, event: Event, now: nat): Result<Loop, (int, string)> {
    match event
    case Lifecycle(name, ts) => Ok(l.(core := OnLifecycle(l.core, name, ts, now), now := now))
    case Received(r) =>
      if !IsRealResource(r.url) then Ok(l.(now := now)) else
        var pending := l.core.pending;
        var pos := Position(pending, r.url);
        if pos == |pending| then Ok(l.(core := l.core.(document := OnDocument(l.core.document, r)), now := now))
        else if !(200 <= r.status < 400) then Err((r.status, r.url))
        else Ok(Loop(l.core.(document := OnDocument(l.core.document, r), pending := SwapRemove(pending, pos)), now,
                     l.served[pending[pos].index := k]))
    case _ => Ok(l.(now := now))
  }

  function GateAt(cfg: Config, c: Core): Option<nat> { if cfg.waitUntilLoad then c.loadAt else c.idleAt }

  function StopAt(cfg: Config, l: Loop): nat {
    CollectStopAt(cfg.deadline, GateAt(cfg, l.core), l.core.pending != [], l.now)
  }

  /** When the next event would be handled: on arrival, or at once if it was queued before. */
  function DeliveredAt(l: Loop, a: Arrival): nat { Max(l.now, a.at) }

  /** The sleep fires before the event is delivered. */
  predicate SleepFirst(cfg: Config, l: Loop, a: Arrival) {
    DeliveredAt(l, a) > StopAt(cfg, l) || (DeliveredAt(l, a) == StopAt(cfg, l) && !a.wins)
  }

  /** The loop from event `k` on. */
  function Run(cfg: Config, l: Loop, events: seq<Arrival>, k: nat): Exit
    requires k <= |events|
    decreases |events| - k
  {
    if StopAt(cfg, l) <= l.now then Settled(l, l.now, k)
    else if k == |events| || SleepFirst(cfg, l, events[k]) then Settled(l, StopAt(cfg, l), k)
    else
      var t := DeliveredAt(l, events[k]);
      match Handle(l, k, events[k].event, t)
      case Err((status, url)) => UpstreamFailure(status, url, t, k)
      case Ok(l') => Run(cfg, l', events, k + 1)
  }

  function Enumerate(patterns: seq<string>): seq<Pattern> {
    seq(|patterns|, i requires 0 <= i < |patterns| => Pattern(i, patterns[i]))
  }

  function Start(patterns: seq<string>, start: nat): Loop {
    Loop(Core(None, None, None, None, None, None, None, Enumerate(patterns)), start, map[])
  }

  predicate IsCore(e: Event) { e.Lifecycle? || e.Received? }

  /** Events are handled in arrival order. */
  ghost predicate Arriving(events: seq<Arrival>) {
    forall i, j | 0 <= i <= j < |events| :: events[i].at <= events[j].at
  }

  /** None wins a tie with the expiring sleep. */
  ghost predicate Untied(events: seq<Arrival>) { forall a | a in events :: !a.wins }

  lemma RunUnfolds(cfg: Config, l: Loop, events: seq<Arrival>, k: nat)
    requires k <= |events|
    ensures StopAt(cfg, l) <= l.now ==> Run(cfg, l, events, k) == Settled(l, l.now, k)
    ensures StopAt(cfg, l) > l.now && (k == |events| || SleepFirst(cfg, l, events[k])) ==>
              Run(cfg, l, events, k) == Settled(l, StopAt(cfg, l), k)
    ensures StopAt(cfg, l) > l.now && k < |events| && !SleepFirst(cfg, l, events[k]) ==>
              var t := DeliveredAt(l, events[k]);
              Run(cfg, l, events, k)
              == match Handle(l, k, events[k].event, t)
                 case Err(f) => UpstreamFailure(f.0, f.1, t, k)
                 case Ok(l') => Run(cfg, l', events, k + 1)
  {
  }

  // ---------------------------------------------------------------- the two loops

  /** Only lifecycle and response events reach this loop. */
  method CollectSummaryLean(events: seq<Arrival>, start: nat, timeout: nat, waitForRequest: seq<string>,
                            waitUntilLoad: bool)
    returns (exit: Exit)
    requires forall a | a in events :: IsCore(a.event)
    ensures exit == Run(Config(start + timeout, waitUntilLoad), Start(waitForRequest, start), events, 0)
  {
    hide Run, Position, BuildDocumentTiming, IsRealResource, Contains;
    ghost var cfg := Config(start + timeout, waitUntilLoad);
    var deadline := start + timeout;
    var document: Option<DocumentTiming> := None;
    var pending := Enumerate(waitForRequest);
    var idleAt: Option<nat>, loadAt: Option<nat> := None, None;
    var initTs: Option<real>, fcpTs: Option<real>, dclTs: Option<real>, loadTs: Option<real> := None, None, None, None;
    var now: nat, k: nat := start, 0;
    var served: map<nat, nat> := map[];
    while true
      invariant k <= |events|
      invariant Run(cfg, Start(waitForRequest, start), events, 0)
                == Run(cfg,
                       Loop(Core(document, initTs, fcpTs, dclTs, loadTs, loadAt, idleAt, pending), now, served),
                       events, k)
      decreases |events| - k
    {
      var l := Loop(Core(document, initTs, fcpTs, dclTs, loadTs, loadAt, idleAt, pending), now, served);
      RunUnfolds(cfg, l, events, k);
      var stopAt := CollectStopAt(deadline, if waitUntilLoad then loadAt else idleAt, pending != [], now);
      if stopAt <= now {
        return Settled(l, now, k);
      }
      if k == |events| || Max(now, events[k].at) > stopAt || (Max(now, events[k].at) == stopAt && !events[k].wins) {
        return Settled(l, stopAt, k);
      }
      now := Max(now, events[k].at);
      match events[k].event {
        case Lifecycle(name, ts) =>
          if name == "init" {
            initTs := GetOrInsert(initTs, ts);
          } else if name == "firstContentfulPaint" {
            fcpTs := GetOrInsert(fcpTs, ts);
          } else if name == "DOMContentLoaded" {
            dclTs := GetOrInsert(dclTs, ts);
          } else if name == "load" {
            loadTs := GetOrInsert(loadTs, ts);
            loadAt := GetOrInsert(loadAt, now);
          } else if name == "networkIdle" {
            idleAt := GetOrInsert(idleAt, now);
          }
        case Received(r) =>
          if IsRealResource(r.url) {
            var pos := Position(pending, r.url);
            if pos < |pending| {
              if !(200 <= r.status < 400) {
                return UpstreamFailure(r.status, r.url, now, k);
              }
              served := served[pending[pos].index := k];
              pending := SwapRemove(pending, pos);
            }
            if r.document {
              var s := AsU32(r.status);
              if s < 400 {
                var fromCache := FromCache(r);
                var protocol := UnwrapOr(r.protocol, "");
                if r.timing.Some? {
                  document := Some(BuildDocumentTiming(r.url, s, fromCache, protocol, r.timing.value));
                } else if fromCache {
                  document := Some(DocumentTiming(r.url, s, fromCache, protocol, 0, 0, 0, 0));
                }
              }
            }
          }
        case _ =>
      }
      k := k + 1;
    }
  }

  function Consumed(e: Exit): nat { if e.Settled? then e.used else e.seen }

  datatype Recording = Recording(url: string, status: nat, fromCache: bool, protocol: string)

  /** The resource list after the first `k` events; a request leaves a stub for its response. */
  function Recorded(events: seq<Arrival>, k: nat): map<string, Recording>
    requires k <= |events|
  {
    if k == 0 then map[] else
      var m := Recorded(events, k - 1);
      match events[k - 1].event
      case Received(r) =>
        if IsRealResource(r.url) then
          m[r.id := Recording(r.url, AsU32(r.status), FromCache(r), UnwrapOr(r.protocol, ""))] else m
      case Request(id, url) =>
        if !IsRealResource(url) then m else
          var e := if id in m then m[id] else Recording("", 0, false, "");
          m[id := if e.url == "" then e.(url := url) else e]
      case _ => m
  }

  /** This loop also keeps the resource list and listens to every other stream. */
  method CollectSummary(events: seq<Arrival>, start: nat, timeout: nat, waitForRequest: seq<string>,
                        waitUntilLoad: bool)
    returns (exit: Exit, resources: map<string, Recording>)
    ensures exit == Run(Config(start + timeout, waitUntilLoad), Start(waitForRequest, start), events, 0)
    ensures Consumed(exit) <= |events| && resources == Recorded(events, Consumed(exit))
  {
    hide Run, Position, BuildDocumentTiming, IsRealResource, Contains;
    ghost var cfg := Config(start + timeout, waitUntilLoad);
    var deadline := start + timeout;
    var document: Option<DocumentTiming> := None;
    var pending := Enumerate(waitForRequest);
    var idleAt: Option<nat>, loadAt: Option<nat> := None, None;
    var initTs: Option<real>, fcpTs: Option<real>, dclTs: Option<real>, loadTs: Option<real> := None, None, None, None;
    var now: nat, k: nat := start, 0;
    var served: map<nat, nat> := map[];
    resources := map[];
    while true
      invariant k <= |events|
      invariant Run(cfg, Start(waitForRequest, start), events, 0)
                == Run(cfg,
                       Loop(Core(document, initTs, fcpTs, dclTs, loadTs, loadAt, idleAt, pending), now, served),
                       events, k)
      invariant resources == Recorded(events, k)
      decreases |events| - k
    {
      var l := Loop(Core(document, initTs, fcpTs, dclTs, loadTs, loadAt, idleAt, pending), now, served);
      RunUnfolds(cfg, l, events, k);
      var stopAt := CollectStopAt(deadline, if waitUntilLoad then loadAt else idleAt, pending != [], now);
      if stopAt <= now {
        return Settled(l, now, k), resources;
      }
      if k == |events| || Max(now, events[k].at) > stopAt || (Max(now, events[k].at) == stopAt && !events[k].wins) {
        return Settled(l, stopAt, k), resources;
      }
      now := Max(now, events[k].at);
      match events[k].event {
        case Lifecycle(name, ts) =>
          if name == "init" {
            initTs := GetOrInsert(initTs, ts);
          } else if name == "firstContentfulPaint" {
            fcpTs := GetOrInsert(fcpTs, ts);
          } else if name == "DOMContentLoaded" {
            dclTs := GetOrInsert(dclTs, ts);
          } else if name == "load" {
            loadTs := GetOrInsert(loadTs, ts);
            loadAt := GetOrInsert(loadAt, now);
          } else if name == "networkIdle" {
            idleAt := GetOrInsert(idleAt, now);
          }
        case Received(r) =>
          if IsRealResource(r.url) {
            var pos := Position(pending, r.url);
            if pos < |pending| {
              if !(200 <= r.status < 400) {
                return UpstreamFailure(r.status, r.url, now, k), resources;
              }
              served := served[pending[pos].index := k];
              pending := SwapRemove(pending, pos);
            }
            var entry := Recording(r.url, AsU32(r.status), FromCache(r), UnwrapOr(r.protocol, ""));
            resources := resources[r.id := entry];
            if r.document {
              var s := AsU32(r.status);
              if s < 400 {
                if r.timing.Some? {
                  document := Some(BuildDocumentTiming(entry.url, s, entry.fromCache, entry.protocol, r.timing.value));
                } else if entry.fromCache {
                  document := Some(DocumentTiming(entry.url, s, true, entry.protocol, 0, 0, 0, 0));
                }
              }
            }
          }
        case Request(id, url) =>
          if IsRealResource(url) {
            var entry := if id in resources then resources[id] else Recording("", 0, false, "");
            if entry.url == "" {
              entry := entry.(url := url);
            }
            resources := resources[id := entry];
          }
        case Other =>
      }
      k := k + 1;
    }
  }
}
