/** The coverage report over all scripts and stylesheets of a page. */
module CoverageReports {
  import opened Wrappers
  import opened Ranking
  import opened Tallies
  import Collect
  import Coverage

  datatype Script = Script(url: string, functions: seq<seq<Coverage.Range>>)

  /** Whether one CSS rule was used; offsets are floats. */
  datatype RuleUsage = RuleUsage(sheet: string, start: real, end: real, used: bool)

  datatype Sheet = Sheet(url: string, length: nat)

  datatype Kind = Js | Css

  datatype Entry = Entry(url: string, kind: Kind, total: nat, used: nat, unused: nat, unusedRatio: real)

  datatype Figures = Figures(total: nat, used: nat, unused: nat, unusedRatio: real)

  datatype Report = Report(js: Figures, css: Figures, topUnused: seq<Entry>)

  const TOP: nat := 10

  function SaturatingSub(a: nat, b: nat): nat { if a >= b then a - b else 0 }

  predicate MoreUnused(a: Entry, b: Entry) { a.unused >= b.unused }

  function EntryOf(url: string, kind: Kind, total: nat, used: nat): Entry {
    var unused := SaturatingSub(total, used);
    Entry(url, kind, total, used, unused, Ratio(unused, total))
  }

  function FiguresOf(total: nat, used: nat): Figures {
    var unused := SaturatingSub(total, used);
    Figures(total, used, unused, Ratio(unused, total))
  }

  function Totals(entries: seq<Entry>): nat {
    if entries == [] then 0 else Totals(entries[..|entries| - 1]) + entries[|entries| - 1].total
  }

  function Used(entries: seq<Entry>): nat {
    if entries == [] then 0 else Used(entries[..|entries| - 1]) + entries[|entries| - 1].used
  }

  // ---------------------------------------------------------------- balances

  /** Unused is what is left of the total, and the ratio its share of it. */
  predicate Balances(total: nat, used: nat, unused: nat, ratio: real) {
    && unused == (if used <= total then total - used else 0)
    && 0.0 <= ratio <= 1.0 && ratio * total as real == unused as real && (total == 0 ==> ratio == 0.0)
  }

  lemma PartsBalance(total: nat, used: nat)
    ensures Balances(total, used, SaturatingSub(total, used), Ratio(SaturatingSub(total, used), total))
  {
    RatioInUnit(SaturatingSub(total, used), total);
    RatioTimes(SaturatingSub(total, used), total);
    hide Ratio;
  }

  lemma EntryOfBalances(url: string, kind: Kind, total: nat, used: nat)
    ensures var e := EntryOf(url, kind, total, used);
            (e.url, e.kind, e.total, e.used) == (url, kind, total, used)
            && Balances(total, used, e.unused, e.unusedRatio)
  {
    PartsBalance(total, used);
    hide Ratio;
  }

  // ---------------------------------------------------------------- scripts

  ghost predicate NonNegative(s: Script) {
    forall r | r in Coverage.Flat(s.functions) && r.Length() > 0 :: r.start >= 0
  }

  predicate Named(s: Script) { s.url != "" && Collect.IsRealResource(s.url) }

  /** The entry of a script: what of its bytes ran. */
  ghost predicate OfScript(s: Script, e: Entry) {
    var rs := Coverage.Flat(s.functions);
    && Named(s) && e.total > 0
    && (e.url, e.kind) == (s.url, Js) && Balances(e.total, e.used, e.unused, e.unusedRatio)
    && Coverage.IsTotal(rs, e.total) && Coverage.SweptFrom(rs, e.used)
    && (Coverage.Laminar(rs) ==> e.used == |Coverage.UsedOffsets(rs)|)
    && (NonNegative(s) ==> e.used <= e.total)
  }

  ghost predicate Skipped(s: Script) { !Named(s) || Coverage.IsTotal(Coverage.Flat(s.functions), 0) }

  /** One entry for each script that is not skipped, in the order of the scripts. */
  ghost predicate FromScripts(entries: seq<Entry>, scripts: seq<Script>) {
    if scripts == [] then entries == [] else
      var (s, before) := (scripts[|scripts| - 1], scripts[..|scripts| - 1]);
      || (Skipped(s) && FromScripts(entries, before))
      || (entries != [] && OfScript(s, entries[|entries| - 1]) && FromScripts(entries[..|entries| - 1], before))
  }

  lemma ScriptAdded(entries: seq<Entry>, scripts: seq<Script>, s: Script, e: Option<Entry>)
    requires FromScripts(entries, scripts) && if e.Some? then OfScript(s, e.value) else Skipped(s)
    ensures FromScripts(if e.Some? then entries + [e.value] else entries, scripts + [s])
  {
    hide OfScript, Skipped;
    assert (scripts + [s])[..|scripts|] == scripts;
    if e.Some? {
      assert (entries + [e.value])[..|entries|] == entries;
    }
  }

  lemma {:induction false} EntryHasScript(entries: seq<Entry>, scripts: seq<Script>, e: Entry)
    requires FromScripts(entries, scripts) && e in entries
    ensures exists s :: s in scripts && OfScript(s, e)
  {
    hide OfScript, Skipped;
    var n := |scripts| - 1;
    assert scripts[n] in scripts;
    if Skipped(scripts[n]) && FromScripts(entries, scripts[..n]) {
      EntryHasScript(entries, scripts[..n], e);
    } else if e != entries[|entries| - 1] {
      EntryHasScript(entries[..|entries| - 1], scripts[..n], e);
    }
  }

  lemma SumsAppend(entries: seq<Entry>, e: Entry)
    ensures Totals(entries + [e]) == Totals(entries) + e.total && Used(entries + [e]) == Used(entries) + e.used
  {
    assert (entries + [e])[..|entries|] == entries;
  }

  /** One script, where skipping it means `None`. */
  method ScriptEntry(s: Script) returns (e: Option<Entry>)
    ensures if e.Some? then OfScript(s, e.value) else Skipped(s)
  {
    if s.url == "" || !Collect.IsRealResource(s.url) {
      return None;
    }
    var used, total := Coverage.ComputeJsCoverage(s.functions);
    if total == 0 {
      return None;
    }
    EntryOfBalances(s.url, Js, total, used);
    return Some(EntryOf(s.url, Js, total, used));
  }

  method ScriptEntries(scripts: seq<Script>) returns (entries: seq<Entry>, jsTotal: nat, jsUsed: nat)
    ensures FromScripts(entries, scripts) && jsTotal == Totals(entries) && jsUsed == Used(entries)
  {
    entries, jsTotal, jsUsed := [], 0, 0;
    assert FromScripts(entries, scripts[..0]);
    hide OfScript, FromScripts, Skipped;
    for i := 0 to |scripts|
      invariant FromScripts(entries, scripts[..i]) && jsTotal == Totals(entries) && jsUsed == Used(entries)
    {
      var e := ScriptEntry(scripts[i]);
      ScriptAdded(entries, scripts[..i], scripts[i], e);
      assert scripts[..i + 1] == scripts[..i] + [scripts[i]];
      if e.Some? {
        SumsAppend(entries, e.value);
        jsTotal := jsTotal + e.value.total;
        jsUsed := jsUsed + e.value.used;
        entries := entries + [e.value];
      }
    }
    assert scripts[..|scripts|] == scripts;
  }

  // ---------------------------------------------------------------- stylesheets

  /** The whole bytes of a used rule; nothing for a negative length. */
  function RuleBytes(r: RuleUsage): nat {
    if !r.used || r.end - r.start <= 0.0 then 0 else (r.end - r.start).Floor
  }

  function SheetBytes(rules: seq<RuleUsage>, sheet: string): nat {
    if rules == [] then 0 else
      var last := rules[|rules| - 1];
      SheetBytes(rules[..|rules| - 1], sheet) + if last.sheet == sheet then RuleBytes(last) else 0
  }

  /** The entry of a stylesheet with rules and a known, positive length: what its used rules
      cover, at most all of it. */
  ghost predicate OfSheet(rules: seq<RuleUsage>, sheets: map<string, Sheet>, id: string, e: Entry) {
    && id in sheets && sheets[id].length > 0 && (exists r :: r in rules && r.sheet == id)
    && (e.url, e.kind) == (sheets[id].url, Css)
    && e.total == sheets[id].length && e.used == Min(SheetBytes(rules, id), sheets[id].length)
    && Balances(e.total, e.used, e.unused, e.unusedRatio)
  }

  function SheetKey(r: RuleUsage): Option<string> { Some(r.sheet) }

  lemma {:induction false} GroupBytes(rules: seq<RuleUsage>, sheet: string)
    ensures SheetBytes(Group(rules, SheetKey, sheet), sheet) == SheetBytes(rules, sheet)
  {
    hide RuleBytes;
    if rules != [] {
      var n := |rules| - 1;
      GroupBytes(rules[..n], sheet);
      var g := Group(rules[..n], SheetKey, sheet);
      if rules[n].sheet == sheet {
        assert Group(rules, SheetKey, sheet) == g + [rules[n]] && (g + [rules[n]])[..|g|] == g;
      } else {
        assert Group(rules, SheetKey, sheet) == g;
      }
    }
  }

  lemma SheetHasRules(rules: seq<RuleUsage>, sheet: string)
    ensures forall r | r in Group(rules, SheetKey, sheet) :: r.sheet == sheet
    ensures (exists r :: r in rules && r.sheet == sheet) <==> Group(rules, SheetKey, sheet) != []
  {
    GroupMembers(rules, SheetKey, sheet);
    hide Group;
  }

  method ComputeCssCoverage(rules: seq<RuleUsage>, ghost sheet: string, length: nat) returns (used: nat, total: nat)
    requires forall r | r in rules :: r.sheet == sheet
    ensures total == length && used == Min(SheetBytes(rules, sheet), length)
  {
    used := 0;
    for i := 0 to |rules|
      invariant used == SheetBytes(rules[..i], sheet)
    {
      assert rules[..i + 1][..i] == rules[..i] && rules[i] in rules;
      if rules[i].used {
        var len := rules[i].end - rules[i].start;
        used := used + if len <= 0.0 then 0 else len.Floor;
      }
    }
    assert rules[..|rules|] == rules;
    return Min(used, length), length;
  }

  /** A sheet with an entry. */
  ghost predicate Counts(rules: seq<RuleUsage>, sheets: map<string, Sheet>, id: string) {
    id in sheets && sheets[id].length > 0 && exists r :: r in rules && r.sheet == id
  }

  /** Entry `i` is that of sheet `ids[i]`, and no sheet comes twice. */
  ghost predicate BySheet(entries: seq<Entry>, ids: seq<string>, rules: seq<RuleUsage>, sheets: map<string, Sheet>) {
    && |ids| == |entries| && Distinct(ids)
    && forall i | 0 <= i < |ids| :: OfSheet(rules, sheets, ids[i], entries[i])
  }

  ghost predicate Covers(ids: seq<string>, rules: seq<RuleUsage>, sheets: map<string, Sheet>, done: set<string>) {
    forall id :: id in ids <==> id in done && Counts(rules, sheets, id)
  }

  /** One entry for each of these sheets that has one, in any order. */
  ghost predicate FromSheets(entries: seq<Entry>, rules: seq<RuleUsage>, sheets: map<string, Sheet>,
                             done: set<string>)
  {
    exists ids :: BySheet(entries, ids, rules, sheets) && Covers(ids, rules, sheets, done)
  }

  lemma SheetAdded(entries: seq<Entry>, rules: seq<RuleUsage>, sheets: map<string, Sheet>, done: set<string>,
                   id: string,
                   e: Option<Entry>)
    requires FromSheets(entries, rules, sheets, done) && id !in done
    requires if e.Some? then OfSheet(rules, sheets, id, e.value) else !Counts(rules, sheets, id)
    ensures FromSheets(if e.Some? then entries + [e.value] else entries, rules, sheets, done + {id})
  {
    var ids :| BySheet(entries, ids, rules, sheets) && Covers(ids, rules, sheets, done);
    var ids' := if e.Some? then ids + [id] else ids;
    assert e.Some? ==> Counts(rules, sheets, id);
    hide OfSheet, Counts;
    assert id !in ids;
    assert Covers(ids', rules, sheets, done + {id});
    assert BySheet(if e.Some? then entries + [e.value] else entries, ids', rules, sheets);
  }

  method SheetEntry(rules: seq<RuleUsage>, sheets: map<string, Sheet>, id: string, group: seq<RuleUsage>)
    returns (e: Option<Entry>)
    requires group == Group(rules, SheetKey, id) && group != []
    ensures if e.Some? then OfSheet(rules, sheets, id, e.value) else !Counts(rules, sheets, id)
  {
    if id !in sheets || sheets[id].length == 0 {
      return None;
    }
    GroupBytes(rules, id);
    SheetHasRules(rules, id);
    hide Group, SheetBytes;
    var used, total := ComputeCssCoverage(group, id, sheets[id].length);
    EntryOfBalances(sheets[id].url, Css, total, used);
    return Some(EntryOf(sheets[id].url, Css, total, used));
  }

  /** One step of the loop below: the entry of a sheet, if it has one, joins the others. */
  method AddSheet(entries: seq<Entry>, cssTotal: nat, cssUsed: nat, e: Option<Entry>)
    returns (entries': seq<Entry>, total: nat, used: nat)
    requires cssTotal == Totals(entries) && cssUsed == Used(entries)
    ensures entries' == if e.Some? then entries + [e.value] else entries
    ensures total == Totals(entries') && used == Used(entries')
  {
    entries', total, used := entries, cssTotal, cssUsed;
    if e.Some? {
      SumsAppend(entries, e.value);
      total := total + e.value.total;
      used := used + e.value.used;
      entries' := entries + [e.value];
    }
  }

  lemma NoSheetYet(rules: seq<RuleUsage>, sheets: map<string, Sheet>)
    ensures FromSheets([], rules, sheets, {}) && Totals([]) == 0 && Used([]) == 0
  {
    assert BySheet([], [], rules, sheets) && Covers([], rules, sheets, {});
  }

  /** The map is visited in any order. */
  method SheetEntries(rules: seq<RuleUsage>, sheets: map<string, Sheet>)
    returns (entries: seq<Entry>, cssTotal: nat, cssUsed: nat)
    ensures FromSheets(entries, rules, sheets, sheets.Keys)
    ensures cssTotal == Totals(entries) && cssUsed == Used(entries)
  {
    hide *;
    var bySheet := GroupBy(rules, SheetKey);
    GroupKeys(bySheet, rules, SheetKey);
    entries, cssTotal, cssUsed := [], 0, 0;
    NoSheetYet(rules, sheets);
    var todo := bySheet.Keys;
    ghost var done: set<string> := {};
    while todo != {}
      invariant done + todo == bySheet.Keys && done !! todo
      invariant FromSheets(entries, rules, sheets, done)
      invariant cssTotal == Totals(entries) && cssUsed == Used(entries)
    {
      var id :| id in todo;
      var e := SheetEntry(rules, sheets, id, bySheet[id]);
      SheetAdded(entries, rules, sheets, done, id, e);
      entries, cssTotal, cssUsed := AddSheet(entries, cssTotal, cssUsed, e);
      todo, done := todo - {id}, done + {id};
    }
    assert done == bySheet.Keys;
    AllSheets(entries, rules, sheets, bySheet);
  }

  lemma AllSheets(entries: seq<Entry>, rules: seq<RuleUsage>, sheets: map<string, Sheet>,
                  bySheet: map<string, seq<RuleUsage>>)
    requires FromSheets(entries, rules, sheets, bySheet.Keys) && bySheet.Keys == Keys(rules, SheetKey)
    ensures FromSheets(entries, rules, sheets, sheets.Keys)
  {
    var ids :| BySheet(entries, ids, rules, sheets) && Covers(ids, rules, sheets, bySheet.Keys);
    forall id
      ensures id in bySheet <==> exists r :: r in rules && r.sheet == id
    {
      SheetHasRules(rules, id);
    }
    hide Group, BySheet;
    assert Covers(ids, rules, sheets, sheets.Keys);
  }

  ghost function Length(sheets: map<string, Sheet>, id: string): nat { if id in sheets then sheets[id].length else 0 }

  ghost function UsedOf(rules: seq<RuleUsage>, sheets: map<string, Sheet>, id: string): int {
    Min(SheetBytes(rules, id), Length(sheets, id))
  }

  ghost function Counting(rules: seq<RuleUsage>, sheets: map<string, Sheet>): set<string> {
    set id | id in sheets && Counts(rules, sheets, id)
  }

  ghost function SetOf(ids: seq<string>): set<string> { set id | id in ids }

  lemma LastSheet(entries: seq<Entry>, ids: seq<string>, rules: seq<RuleUsage>, sheets: map<string, Sheet>)
    requires BySheet(entries, ids, rules, sheets) && ids != []
    ensures var n := |ids| - 1;
            && BySheet(entries[..n], ids[..n], rules, sheets) && ids[n] !in ids[..n]
            && entries[n].total == Length(sheets, ids[n]) && entries[n].used == UsedOf(rules, sheets, ids[n])
  {
    hide SheetBytes;
  }

  lemma SetOfLast(ids: seq<string>)
    requires ids != [] && ids[|ids| - 1] !in ids[..|ids| - 1]
    ensures ids[|ids| - 1] in SetOf(ids) && SetOf(ids) - {ids[|ids| - 1]} == SetOf(ids[..|ids| - 1])
  {
    assert ids == ids[..|ids| - 1] + [ids[|ids| - 1]];
  }

  lemma {:induction false} SumsBySheet(entries: seq<Entry>, ids: seq<string>, rules: seq<RuleUsage>,
                                       sheets: map<string, Sheet>)
    requires BySheet(entries, ids, rules, sheets)
    ensures Totals(entries) == SetSum(SetOf(ids), id => Length(sheets, id))
    ensures Used(entries) == SetSum(SetOf(ids), id => UsedOf(rules, sheets, id))
  {
    assert |ids| == |entries|;
    hide BySheet, SheetBytes, Length, UsedOf;
    if ids == [] {
      assert SetOf(ids) == {};
    } else {
      hide SetSum;
      var n := |ids| - 1;
      LastSheet(entries, ids, rules, sheets);
      SetOfLast(ids);
      hide SetOf;
      SumsBySheet(entries[..n], ids[..n], rules, sheets);
      SetSumTake(SetOf(ids), id => Length(sheets, id), ids[n]);
      SetSumTake(SetOf(ids), id => UsedOf(rules, sheets, id), ids[n]);
    }
  }

  /** The figures of the stylesheets sum each sheet that counts once. */
  lemma SheetSums(entries: seq<Entry>, rules: seq<RuleUsage>, sheets: map<string, Sheet>)
    requires FromSheets(entries, rules, sheets, sheets.Keys)
    ensures Totals(entries) == SetSum(Counting(rules, sheets), id => Length(sheets, id))
    ensures Used(entries) == SetSum(Counting(rules, sheets), id => UsedOf(rules, sheets, id))
  {
    var ids :| BySheet(entries, ids, rules, sheets) && Covers(ids, rules, sheets, sheets.Keys);
    SumsBySheet(entries, ids, rules, sheets);
    hide BySheet, Counts, Totals, Used, SetSum;
    assert SetOf(ids) == Counting(rules, sheets);
  }

  // ---------------------------------------------------------------- the report

  ghost predicate IsReport(report: Report, scripts: seq<Script>, rules: seq<RuleUsage>, sheets: map<string, Sheet>,
                           js: seq<Entry>, css: seq<Entry>)
  {
    && FromScripts(js, scripts) && FromSheets(css, rules, sheets, sheets.Keys)
    && report.js == FiguresOf(Totals(js), Used(js)) && report.css == FiguresOf(Totals(css), Used(css))
    && TopOf(report.topUnused, js + css, MoreUnused, TOP)
  }

  /** The figures of all entries, and the ten entries with the most unused bytes. */
  ghost predicate Reports(report: Report, scripts: seq<Script>, rules: seq<RuleUsage>, sheets: map<string, Sheet>) {
    exists js, css :: IsReport(report, scripts, rules, sheets, js, css)
  }

  method CoverageReport(scripts: seq<Script>, rules: seq<RuleUsage>, sheets: map<string, Sheet>)
    returns (report: Report)
    ensures Reports(report, scripts, rules, sheets)
  {
    var js, jsTotal, jsUsed := ScriptEntries(scripts);
    var css, cssTotal, cssUsed := SheetEntries(rules, sheets);
    assert Ranks(MoreUnused);
    hide FromScripts, FromSheets, Sort, Take, TopOf, FiguresOf;
    SortThenTakeOf(js + css, MoreUnused, TOP);
    report := Report(FiguresOf(jsTotal, jsUsed), FiguresOf(cssTotal, cssUsed), Take(Sort(js + css, MoreUnused), TOP));
    assert IsReport(report, scripts, rules, sheets, js, css);
  }

  // ---------------------------------------------------------------- the report adds up

  lemma {:induction false} UsedWithinTotals(entries: seq<Entry>)
    requires forall e | e in entries :: e.used <= e.total
    ensures Used(entries) <= Totals(entries)
  {
    if entries != [] {
      assert entries[|entries| - 1] in entries;
      UsedWithinTotals(entries[..|entries| - 1]);
    }
  }

  predicate AddsUp(f: Figures) { f.used + f.unused == f.total }

  lemma FiguresBalance(total: nat, used: nat)
    ensures var f := FiguresOf(total, used);
            (f.total, f.used) == (total, used) && Balances(total, used, f.unused, f.unusedRatio)
    ensures used <= total ==> AddsUp(FiguresOf(total, used))
  {
    PartsBalance(total, used);
    hide Ratio;
  }

  lemma EntryFits(rules: seq<RuleUsage>, sheets: map<string, Sheet>, id: string, e: Entry)
    requires OfSheet(rules, sheets, id, e)
    ensures e.used <= e.total && e.kind == Css && Balances(e.total, e.used, e.unused, e.unusedRatio)
  {
    hide SheetBytes;
  }

  lemma SheetEntriesFit(css: seq<Entry>, rules: seq<RuleUsage>, sheets: map<string, Sheet>)
    requires FromSheets(css, rules, sheets, sheets.Keys)
    ensures forall e | e in css ::
              e.used <= e.total && e.kind == Css && Balances(e.total, e.used, e.unused, e.unusedRatio)
  {
    var ids :| BySheet(css, ids, rules, sheets) && Covers(ids, rules, sheets, sheets.Keys);
    hide OfSheet, Balances, Covers;
    forall i | 0 <= i < |css|
      ensures css[i].used <= css[i].total && css[i].kind == Css
      ensures Balances(css[i].total, css[i].used, css[i].unused, css[i].unusedRatio)
    {
      EntryFits(rules, sheets, ids[i], css[i]);
    }
  }

  lemma EntryBalances(js: seq<Entry>, css: seq<Entry>, scripts: seq<Script>, rules: seq<RuleUsage>,
                      sheets: map<string, Sheet>, e: Entry)
    requires FromScripts(js, scripts) && FromSheets(css, rules, sheets, sheets.Keys) && e in js + css
    ensures Balances(e.total, e.used, e.unused, e.unusedRatio) && e.kind == if e in js then Js else Css
  {
    hide Balances, FromSheets;
    if e in js {
      EntryHasScript(js, scripts, e);
      var s :| s in scripts && OfScript(s, e);
    } else {
      SheetEntriesFit(css, rules, sheets);
    }
  }

  lemma FiguresOfScripts(js: seq<Entry>, scripts: seq<Script>)
    requires FromScripts(js, scripts) && forall s | s in scripts :: NonNegative(s)
    ensures AddsUp(FiguresOf(Totals(js), Used(js)))
  {
    forall e | e in js
      ensures e.used <= e.total
    {
      EntryHasScript(js, scripts, e);
      var s :| s in scripts && OfScript(s, e);
    }
    UsedWithinTotals(js);
    FiguresBalance(Totals(js), Used(js));
  }

  lemma FiguresOfSheets(css: seq<Entry>, rules: seq<RuleUsage>, sheets: map<string, Sheet>)
    requires FromSheets(css, rules, sheets, sheets.Keys)
    ensures AddsUp(FiguresOf(Totals(css), Used(css)))
  {
    SheetEntriesFit(css, rules, sheets);
    UsedWithinTotals(css);
    FiguresBalance(Totals(css), Used(css));
  }

  /** The most unused bytes come first, and what is left out has no more of them. */
  ghost predicate MostUnused(top: seq<Entry>, all: seq<Entry>) {
    && |top| == Min(|all|, 10)
    && (forall i, j | 0 <= i <= j < |top| :: top[i].unused >= top[j].unused)
    && exists rest: seq<Entry> ::
         multiset(top + rest) == multiset(all) && forall t, r | t in top && r in rest :: t.unused >= r.unused
  }

  lemma TopIsMostUnused(top: seq<Entry>, all: seq<Entry>)
    requires TopOf(top, all, MoreUnused, TOP)
    ensures MostUnused(top, all)
  {
    var rest :| LeftOut(top, rest, all, MoreUnused);
    assert forall i, j | 0 <= i <= j < |top| :: MoreUnused(top[i], top[j]);
    assert forall t, r | t in top && r in rest :: MoreUnused(t, r);
  }

  /** The entries and the ten worst of them balance, and so do the figures. Used and unused add
      up to the total: always for stylesheets, for scripts when no range starts below zero. */
  ghost predicate WellReported(report: Report, scripts: seq<Script>, rules: seq<RuleUsage>, sheets: map<string, Sheet>,
                               js: seq<Entry>, css: seq<Entry>)
  {
    && FromScripts(js, scripts) && FromSheets(css, rules, sheets, sheets.Keys)
    && (forall e: Entry | e in js + css :: Balances(e.total, e.used, e.unused, e.unusedRatio))
    && MostUnused(report.topUnused, js + css)
    && (report.js.total, report.js.used, report.css.total, report.css.used)
       == (Totals(js), Used(js), Totals(css), Used(css))
    && Balances(report.js.total, report.js.used, report.js.unused, report.js.unusedRatio)
    && Balances(report.css.total, report.css.used, report.css.unused, report.css.unusedRatio)
  }

  lemma AllBalance(js: seq<Entry>, css: seq<Entry>, scripts: seq<Script>, rules: seq<RuleUsage>,
                   sheets: map<string, Sheet>)
    requires FromScripts(js, scripts) && FromSheets(css, rules, sheets, sheets.Keys)
    ensures forall e: Entry | e in js + css :: Balances(e.total, e.used, e.unused, e.unusedRatio)
  {
    hide *;
    forall e: Entry | e in js + css
      ensures Balances(e.total, e.used, e.unused, e.unusedRatio)
    {
      EntryBalances(js, css, scripts, rules, sheets, e);
    }
  }

  lemma IsWellReported(report: Report, scripts: seq<Script>, rules: seq<RuleUsage>, sheets: map<string, Sheet>,
                       js: seq<Entry>, css: seq<Entry>)
    requires IsReport(report, scripts, rules, sheets, js, css)
    ensures WellReported(report, scripts, rules, sheets, js, css)
  {
    hide FromScripts, FromSheets, TopOf, Balances, AddsUp, MostUnused, FiguresOf, Totals, Used;
    FiguresBalance(Totals(js), Used(js));
    FiguresBalance(Totals(css), Used(css));
    TopIsMostUnused(report.topUnused, js + css);
    AllBalance(js, css, scripts, rules, sheets);
  }

  lemma FiguresAddUp(report: Report, scripts: seq<Script>, rules: seq<RuleUsage>, sheets: map<string, Sheet>,
                     js: seq<Entry>, css: seq<Entry>)
    requires IsReport(report, scripts, rules, sheets, js, css)
    ensures AddsUp(report.css)
    ensures (forall s | s in scripts :: NonNegative(s)) ==> AddsUp(report.js)
  {
    hide FromScripts, FromSheets, TopOf, AddsUp, FiguresOf, Totals, Used, NonNegative;
    FiguresOfSheets(css, rules, sheets);
    if forall s | s in scripts :: NonNegative(s) {
      FiguresOfScripts(js, scripts);
    }
  }

  lemma ReportAddsUp(report: Report, scripts: seq<Script>, rules: seq<RuleUsage>, sheets: map<string, Sheet>)
    requires Reports(report, scripts, rules, sheets)
    ensures exists js, css :: WellReported(report, scripts, rules, sheets, js, css)
    ensures AddsUp(report.css)
    ensures report.css.total == SetSum(Counting(rules, sheets), id => Length(sheets, id))
    ensures report.css.used == SetSum(Counting(rules, sheets), id => UsedOf(rules, sheets, id))
    ensures (forall s | s in scripts :: NonNegative(s)) ==> AddsUp(report.js)
  {
    hide FromScripts, FromSheets, TopOf, Balances, AddsUp, SetSum, Counting, MostUnused, Totals, Used, NonNegative;
    var js, css :| IsReport(report, scripts, rules, sheets, js, css);
    IsWellReported(report, scripts, rules, sheets, js, css);
    FiguresAddUp(report, scripts, rules, sheets, js, css);
    SheetSums(css, rules, sheets);
  }

  // ---------------------------------------------------------------- one rule

  /** A used rule covers the whole bytes of its length, none if that is negative. */
  lemma RuleBytesMean(r: RuleUsage)
    ensures !r.used || r.end <= r.start ==> RuleBytes(r) == 0
    ensures r.used && r.start <= r.end ==> RuleBytes(r) as real <= r.end - r.start < RuleBytes(r) as real + 1.0
  {
  }
}
