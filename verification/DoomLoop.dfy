/** The doom-loop detector (capability/registry/doom_loop.go): it keeps a trimmed window of
    the call trace and a few counters, and refuses a call that would extend a loop. */
module DoomLoop {
  import opened Options
  import opened Text

  datatype Config = Config(identical: int, oscillation: int, fixation: int, stall: int) {
    predicate Valid() {
      1 <= identical && 1 <= oscillation && 1 <= fixation && 1 <= stall
    }
  }

  const DEFAULT := Config(3, 6, 4, 30)

  /** Thresholds that are not positive fall back to the defaults. */
  function Normalized(c: Config): (n: Config)
    ensures n.Valid()
    ensures c.Valid() ==> n == c
    ensures c.identical <= 0 ==> n.identical == 3
    ensures c.oscillation <= 0 ==> n.oscillation == 6
    ensures c.fixation <= 0 ==> n.fixation == 4
    ensures c.stall <= 0 ==> n.stall == 30
  {
    Config(if c.identical <= 0 then DEFAULT.identical else c.identical,
           if c.oscillation <= 0 then DEFAULT.oscillation else c.oscillation,
           if c.fixation <= 0 then DEFAULT.fixation else c.fixation,
           if c.stall <= 0 then DEFAULT.stall else c.stall)
  }

  // ----- calls and results -----

  /** Call arguments: none, a JSON list of key-value pairs, or not encodable. */
  datatype Args = NoArgs | Pairs(json: string) | Unencodable(typeName: string)

  function HashArgs(a: Args): (h: string)
    ensures h != ""
  {
    match a
    case NoArgs => "{}"
    case Pairs(json) => "[" + json + "]"
    case Unencodable(t) => "marshal-error:" + t
  }

  /** Different arguments give different hashes, so calls are told apart exactly as they differ. */
  lemma HashSeparates(a: Args, b: Args)
    ensures HashArgs(a) == HashArgs(b) <==> a == b
  {
    var x, y := HashArgs(a), HashArgs(b);
    if x == y {
      assert x[0] == y[0];
      match a
      case NoArgs =>
      case Pairs(json) => assert x[1..|x| - 1] == json && (b.Pairs? ==> y[1..|y| - 1] == b.json);
      case Unencodable(t) => assert x[14..] == t && (b.Unencodable? ==> y[14..] == b.typeName);
    }
  }

  datatype Call = Call(id: string, args: Args)

  datatype Value = Str(s: string) | Strings(list: seq<string>) | Mixed(items: seq<Option<string>>) | Other

  datatype ToolResult = ToolResult(error: string, data: map<string, Value>, metadata: map<string, Value>)

  function NormalizeError(r: Option<ToolResult>): (e: string)
    ensures |e| <= 120
  {
    if r.None? then ""
    else
      var t := Trim(r.value.error);
      if |t| > 120 then t[..120] else t
  }

  function StringAt(m: map<string, Value>, key: string): Option<string> {
    if key in m && m[key].Str? && Trim(m[key].s) != "" then Some(Trim(m[key].s)) else None
  }

  function FirstPath(m: map<string, Value>): Option<string> {
    var a, b := StringAt(m, "modified_path"), StringAt(m, "path");
    var c, d := StringAt(m, "file_path"), StringAt(m, "target");
    if a.Some? then a else if b.Some? then b else if c.Some? then c else d
  }

  function FirstNonBlank(items: seq<Option<string>>): string {
    if items == [] then ""
    else if items[0].Some? && Trim(items[0].value) != "" then Trim(items[0].value)
    else FirstNonBlank(items[1..])
  }

  function ListedPath(m: map<string, Value>): Option<string> {
    if "modified_paths" !in m then None
    else match m["modified_paths"]
      case Strings(list) => if list == [] then None else Some(Trim(list[0]))
      case Mixed(items) => var p := FirstNonBlank(items); if p == "" then None else Some(p)
      case _ => None
  }

  function ModifiedPath(r: Option<ToolResult>): string {
    if r.None? then ""
    else
      var fromData, listed, fromMeta := FirstPath(r.value.data), ListedPath(r.value.data), FirstPath(r.value.metadata);
      if fromData.Some? then fromData.value
      else if listed.Some? then listed.value
      else if fromMeta.Some? then fromMeta.value
      else ""
  }

  /** The value of a field that is a non-blank text. */
  predicate Names(m: map<string, Value>, key: string, path: string) {
    key in m && m[key].Str? && Trim(m[key].s) != "" && path == Trim(m[key].s)
  }

  /** The path comes from the first of these fields of the data that names one, else from its
      list, else from the same fields of the metadata. */
  lemma PathPrecedence(r: ToolResult, k: nat, path: string)
    requires k < 4
    requires var keys := ["modified_path", "path", "file_path", "target"];
             && (forall j, p :: 0 <= j < k ==> !Names(r.data, keys[j], p)) && Names(r.data, keys[k], path)
    ensures ModifiedPath(Some(r)) == path
  {
    var keys := ["modified_path", "path", "file_path", "target"];
    forall j | 0 <= j < k ensures StringAt(r.data, keys[j]) == None {
      assert !Names(r.data, keys[j], if keys[j] in r.data && r.data[keys[j]].Str? then Trim(r.data[keys[j]].s) else "");
    }
    assert StringAt(r.data, keys[k]) == Some(path);
    assert keys[0] == "modified_path" && keys[1] == "path" && keys[2] == "file_path" && keys[3] == "target";
  }

  /** Without such a field in the data, the first entry of its list of paths counts, or else such a
      field of the metadata. */
  lemma PathFallback(r: ToolResult, k: nat, path: string)
    requires forall key, p :: key in ["modified_path", "path", "file_path", "target"] ==> !Names(r.data, key, p)
    ensures "modified_paths" in r.data && r.data["modified_paths"].Strings? && r.data["modified_paths"].list != [] ==>
              ModifiedPath(Some(r)) == Trim(r.data["modified_paths"].list[0])
    ensures "modified_paths" !in r.data ==>
              var keys := ["modified_path", "path", "file_path", "target"];
              && k < 4 && (forall j, p :: 0 <= j < k ==> !Names(r.metadata, keys[j], p))
              && Names(r.metadata, keys[k], path)
              ==> ModifiedPath(Some(r)) == path
  {
    var keys := ["modified_path", "path", "file_path", "target"];
    assert keys[0] == "modified_path" && keys[1] == "path" && keys[2] == "file_path" && keys[3] == "target";
    NoneNamed(r.data);
    if "modified_paths" !in r.data && k < 4 && Names(r.metadata, keys[k], path)
       && (forall j, p :: 0 <= j < k ==> !Names(r.metadata, keys[j], p)) {
      PathPrecedence(r.(data := r.metadata), k, path);
      assert FirstPath(r.metadata).Some?;
    }
  }

  lemma NoneNamed(m: map<string, Value>)
    requires forall key, p :: key in ["modified_path", "path", "file_path", "target"] ==> !Names(m, key, p)
    ensures FirstPath(m).None?
  {
    var keys := ["modified_path", "path", "file_path", "target"];
    assert keys[0] == "modified_path" && keys[1] == "path" && keys[2] == "file_path" && keys[3] == "target";
    forall key | key in keys ensures StringAt(m, key) == None {
      assert !Names(m, key, if key in m && m[key].Str? then Trim(m[key].s) else "");
    }
  }

  /** An error message counts trimmed and up to 120 characters, and a blank one not at all. */
  lemma ErrorMeans(r: ToolResult)
    ensures NormalizeError(Some(r)) == "" <==> Blank(r.error)
    ensures NormalizeError(Some(r)) <= Trim(r.error)
    ensures |Trim(r.error)| <= 120 ==> NormalizeError(Some(r)) == Trim(r.error)
    ensures |Trim(r.error)| > 120 ==> |NormalizeError(Some(r))| == 120
  {
    TrimProperties(r.error);
  }

  function Coordinated(target: bool, r: Option<ToolResult>): bool {
    r.Some? && Trim(r.value.error) == "" && target && (r.value.data != map[] || r.value.metadata != map[])
  }

  /** What the detector takes from a finished call. */
  datatype Report = Report(error: string, path: string, coordinated: bool)

  function ReportOf(target: bool, r: Option<ToolResult>): Report {
    Report(NormalizeError(r), ModifiedPath(r), Coordinated(target, r))
  }

  /** Output counts as coordination exactly if it is that of a coordination target, without an
      error and not empty; a missing result reports nothing. */
  lemma ReportMeans(target: bool, r: ToolResult)
    ensures ReportOf(target, Some(r)).coordinated <==>
            target && Blank(r.error) && (r.data != map[] || r.metadata != map[])
    ensures ReportOf(target, None) == Report("", "", false)
  {
    TrimProperties(r.error);
  }

  datatype Record = Record(id: string, hash: string, error: string, path: string)

  function Opened(c: Call): Record {
    Record(c.id, HashArgs(c.args), "", "")
  }

  // ----- verdicts -----

  datatype Kind = IdenticalCall | Oscillating | ErrorFixation | ProgressStall

  datatype Alarm = Alarm(kind: Kind, evidence: seq<string>, count: int)

  predicate SameCall(a: Record, b: Record) {
    a.id == b.id && a.hash == b.hash
  }

  function Tail(h: seq<Record>, n: nat): seq<Record> {
    if |h| < n then h else h[|h| - n..]
  }

  function CallKey(r: Record): string {
    r.id + ":" + r.hash
  }

  function Keys(h: seq<Record>): (k: seq<string>)
    ensures |k| == |h| && forall i :: 0 <= i < |h| ==> k[i] == CallKey(h[i])
  {
    seq(|h|, i requires 0 <= i < |h| => CallKey(h[i]))
  }

  function Errors(h: seq<Record>): seq<string> {
    if h == [] then []
    else (if h[0].error == "" then [] else [h[0].error]) + Errors(h[1..])
  }

  predicate Repeats(t: seq<Record>) {
    && t != [] && t[0].id != "" && t[0].hash != ""
    && forall i :: 0 <= i < |t| ==> SameCall(t[i], t[0])
  }

  predicate Alternates(t: seq<Record>) {
    && |t| >= 2 && t[0].id != "" && t[1].id != "" && !SameCall(t[0], t[1])
    && forall i :: 0 <= i < |t| ==> SameCall(t[i], t[i % 2])
  }

  predicate IdenticalTail(c: Config, h: seq<Record>)
    requires c.Valid()
  {
    |h| >= c.identical && Repeats(Tail(h, c.identical))
  }

  predicate OscillatingTail(c: Config, h: seq<Record>)
    requires c.Valid()
  {
    c.oscillation >= 4 && c.oscillation % 2 == 0 && |h| >= c.oscillation && Alternates(Tail(h, c.oscillation))
  }

  datatype State = State(history: seq<Record>, modified: set<string>, noProgress: nat, streak: nat, lastError: string)

  const FRESH := State([], {}, 0, 0, "")

  function Verdict(c: Config, s: State, call: Call): Option<Alarm>
    requires c.Valid()
  {
    var preview := s.history + [Opened(call)];
    if IdenticalTail(c, preview) then Some(Alarm(IdenticalCall, Keys(Tail(preview, c.identical)), c.identical))
    else if OscillatingTail(c, preview) then Some(Alarm(Oscillating, Keys(Tail(preview, c.oscillation)), c.oscillation))
    else if s.streak >= c.fixation && s.lastError != "" then
      Some(Alarm(ErrorFixation, Errors(Tail(s.history, c.fixation)), s.streak))
    else if s.noProgress >= c.stall then
      Some(Alarm(ProgressStall, Keys(Tail(s.history, c.stall)), s.noProgress))
    else None
  }

  function Limit(c: Config): (n: int)
    ensures c.Valid() ==> 1 <= n
    ensures c.identical <= n && c.oscillation <= n && c.fixation <= n && c.stall <= n
  {
    var a := if c.oscillation > c.stall then c.oscillation else c.stall;
    var b := if c.fixation > a then c.fixation else a;
    if c.identical > b then c.identical else b
  }

  /** The history kept after an append: the window, or everything. */
  function Kept(c: Config, bounded: bool, h: seq<Record>): seq<Record>
    requires c.Valid()
  {
    if bounded then Tail(h, Limit(c)) else h
  }

  // ----- steps -----

  function AfterCheck(c: Config, bounded: bool, s: State, call: Call): State
    requires c.Valid()
  {
    if Verdict(c, s, call).Some? then s
    else s.(history := Kept(c, bounded, s.history + [Opened(call)]))
  }

  predicate Unanswered(h: seq<Record>, id: string) {
    h != [] && h[|h| - 1].id == id && h[|h| - 1].error == "" && h[|h| - 1].path == ""
  }

  /** The history after a result, whatever the counters do. */
  function Noted(c: Config, bounded: bool, h: seq<Record>, id: string, r: Report): seq<Record>
    requires c.Valid()
  {
    if Unanswered(h, id) then h[|h| - 1 := h[|h| - 1].(error := r.error, path := r.path)]
    else Kept(c, bounded, h + [Record(id, "", r.error, r.path)])
  }

  function AfterResult(c: Config, bounded: bool, s: State, id: string, r: Report): State
    requires c.Valid()
  {
    State(
      Noted(c, bounded, s.history, id, r),
      if r.path != "" then s.modified + {r.path} else s.modified,
      if (r.path != "" && r.path !in s.modified) || (r.path == "" && r.coordinated) then 0 else s.noProgress + 1,
      if r.error == "" then 0 else if r.error == s.lastError then s.streak + 1 else 1,
      r.error)
  }

  datatype Event = Check(call: Call) | Result(id: string, report: Report) | Reset

  function Step(c: Config, bounded: bool, s: State, e: Event): State
    requires c.Valid()
  {
    match e
    case Check(call) => AfterCheck(c, bounded, s, call)
    case Result(id, r) => AfterResult(c, bounded, s, id, r)
    case Reset => FRESH
  }

  function Answer(c: Config, s: State, e: Event): Option<Alarm>
    requires c.Valid()
  {
    if e.Check? then Verdict(c, s, e.call) else None
  }

  /** The detector over a whole trace of events: its answers, one per event. */
  function Answers(c: Config, bounded: bool, s: State, events: seq<Event>): seq<Option<Alarm>>
    requires c.Valid()
    decreases |events|
  {
    if events == [] then []
    else [Answer(c, s, events[0])] + Answers(c, bounded, Step(c, bounded, s, events[0]), events[1..])
  }

  function Final(c: Config, bounded: bool, s: State, events: seq<Event>): State
    requires c.Valid()
    decreases |events|
  {
    if events == [] then s else Final(c, bounded, Step(c, bounded, s, events[0]), events[1..])
  }

  // ----- the bounded detector is the unbounded one -----

  /** Same counters, and the window is the end of the full history. */
  predicate Window(c: Config, s: State, full: State)
    requires c.Valid()
  {
    s == full.(history := Tail(full.history, Limit(c)))
  }

  lemma TailOfTail(h: seq<Record>, n: nat, m: nat)
    requires n <= m
    ensures Tail(Tail(h, m), n) == Tail(h, n)
  {}

  lemma TailOfAppend(h: seq<Record>, r: Record, n: nat, m: nat)
    requires 1 <= n <= m
    ensures Tail(Tail(h, m) + [r], n) == Tail(h + [r], n)
    ensures |Tail(h, m) + [r]| >= n <==> |h + [r]| >= n
  {}

  lemma TailOfUpdate(h: seq<Record>, r: Record, m: nat)
    requires h != [] && 1 <= m
    ensures Tail(h, m) != []
    ensures Tail(h, m)[|Tail(h, m)| - 1] == h[|h| - 1]
    ensures Tail(h, m)[|Tail(h, m)| - 1 := r] == Tail(h[|h| - 1 := r], m)
  {}

  lemma SameVerdict(c: Config, s: State, full: State, call: Call)
    requires c.Valid() && Window(c, s, full)
    ensures Verdict(c, s, call) == Verdict(c, full, call)
  {
    TailOfAppend(full.history, Opened(call), c.identical, Limit(c));
    TailOfAppend(full.history, Opened(call), c.oscillation, Limit(c));
    TailOfTail(full.history, c.fixation, Limit(c));
    TailOfTail(full.history, c.stall, Limit(c));
  }

  lemma CheckKeepsWindow(c: Config, s: State, full: State, call: Call)
    requires c.Valid() && Window(c, s, full)
    ensures Window(c, AfterCheck(c, true, s, call), AfterCheck(c, false, full, call))
  {
    SameVerdict(c, s, full, call);
    TailOfAppend(full.history, Opened(call), Limit(c), Limit(c));
  }

  lemma NotedKeepsWindow(c: Config, h: seq<Record>, id: string, r: Report)
    requires c.Valid()
    ensures Noted(c, true, Tail(h, Limit(c)), id, r) == Tail(Noted(c, false, h, id, r), Limit(c))
  {
    if h != [] { TailOfUpdate(h, h[|h| - 1].(error := r.error, path := r.path), Limit(c)); }
    assert Unanswered(Tail(h, Limit(c)), id) == Unanswered(h, id);
    if !Unanswered(h, id) { TailOfAppend(h, Record(id, "", r.error, r.path), Limit(c), Limit(c)); }
  }

  lemma StepKeepsWindow(c: Config, s: State, full: State, e: Event)
    requires c.Valid() && Window(c, s, full)
    ensures Window(c, Step(c, true, s, e), Step(c, false, full, e))
  {
    match e
    case Check(call) => CheckKeepsWindow(c, s, full, call);
    case Result(id, r) => NotedKeepsWindow(c, full.history, id, r);
    case Reset =>
  }

  /** Trimming loses nothing: over every trace of checks, results and resets, the bounded
      detector gives the verdicts, kinds, counts and evidence of one that forgets nothing. */
  lemma {:induction false} TrimmingLosesNothing(c: Config, s: State, full: State, events: seq<Event>)
    requires c.Valid() && Window(c, s, full)
    ensures Answers(c, true, s, events) == Answers(c, false, full, events)
    ensures Window(c, Final(c, true, s, events), Final(c, false, full, events))
    decreases |events|
  {
    if events != [] {
      if events[0].Check? { SameVerdict(c, s, full, events[0].call); }
      StepKeepsWindow(c, s, full, events[0]);
      TrimmingLosesNothing(c, Step(c, true, s, events[0]), Step(c, false, full, events[0]), events[1..]);
    }
  }

  // ----- what the counters mean -----

  /** Results since the last reset, in order. */
  function Reports(events: seq<Event>): seq<Report> {
    if events == [] then []
    else
      var before, e := events[..|events| - 1], events[|events| - 1];
      match e
      case Reset => []
      case Result(_, r) => Reports(before) + [r]
      case Check(_) => Reports(before)
  }

  function PathsOf(rs: seq<Report>): set<string> {
    set i | 0 <= i < |rs| && rs[i].path != "" :: rs[i].path
  }

  /** The i-th result touched a path no earlier one touched, or was coordination output. */
  predicate Progressed(rs: seq<Report>, i: nat)
    requires i < |rs|
  {
    if rs[i].path != "" then rs[i].path !in PathsOf(rs[..i]) else rs[i].coordinated
  }

  /** Exactly the last k results made no progress. */
  predicate Stalled(rs: seq<Report>, k: nat) {
    && k <= |rs|
    && (forall i :: |rs| - k <= i < |rs| ==> !Progressed(rs, i))
    && (k < |rs| ==> Progressed(rs, |rs| - k - 1))
  }

  /** Exactly the last k results failed with the same, non-empty message. */
  predicate Streak(rs: seq<Report>, k: nat, message: string) {
    && k <= |rs|
    && (k == 0 <==> message == "")
    && (rs == [] ==> message == "") && (rs != [] ==> rs[|rs| - 1].error == message)
    && (forall i :: |rs| - k <= i < |rs| ==> rs[i].error == message)
    && (0 < k < |rs| ==> rs[|rs| - k - 1].error != message)
  }

  ghost predicate Meaning(rs: seq<Report>, s: State) {
    s.modified == PathsOf(rs) && Stalled(rs, s.noProgress) && Streak(rs, s.streak, s.lastError)
  }

  lemma PathsAppend(rs: seq<Report>, r: Report)
    ensures PathsOf(rs + [r]) == if r.path != "" then PathsOf(rs) + {r.path} else PathsOf(rs)
  {
    var t := rs + [r];
    forall p | p in PathsOf(rs) ensures p in PathsOf(t) {
      var i :| 0 <= i < |rs| && rs[i].path != "" && rs[i].path == p;
      assert t[i].path == p;
    }
    if r.path != "" { assert t[|rs|].path == r.path; }
  }

  lemma ProgressAppend(rs: seq<Report>, r: Report)
    ensures forall i :: 0 <= i < |rs| ==> (Progressed(rs + [r], i) <==> Progressed(rs, i))
    ensures Progressed(rs + [r], |rs|) <==> if r.path != "" then r.path !in PathsOf(rs) else r.coordinated
  {
    var t := rs + [r];
    forall i | 0 <= i < |rs| ensures Progressed(t, i) <==> Progressed(rs, i) {
      assert t[..i] == rs[..i];
    }
    assert t[..|rs|] == rs;
  }

  lemma ResultKeepsMeaning(c: Config, bounded: bool, rs: seq<Report>, s: State, id: string, r: Report)
    requires c.Valid() && Meaning(rs, s)
    ensures Meaning(rs + [r], AfterResult(c, bounded, s, id, r))
  {
    PathsAppend(rs, r);
    ProgressAppend(rs, r);
  }

  lemma FinalAppend(c: Config, bounded: bool, s: State, events: seq<Event>, e: Event)
    requires c.Valid()
    ensures Final(c, bounded, s, events + [e]) == Step(c, bounded, Final(c, bounded, s, events), e)
    decreases |events|
  {
    if events == [] {
      assert events + [e] == [e];
    } else {
      assert (events + [e])[1..] == events[1..] + [e];
      FinalAppend(c, bounded, Step(c, bounded, s, events[0]), events[1..], e);
    }
  }

  /** After every trace the streak counter is the number of trailing results with the same
      error, the stall counter the number of trailing results without progress, and the path
      set the paths touched since the last reset. */
  lemma {:induction false} CountersMeanWhatTheySay(c: Config, bounded: bool, events: seq<Event>)
    requires c.Valid()
    ensures Meaning(Reports(events), Final(c, bounded, FRESH, events))
    decreases |events|
  {
    if events != [] {
      var before, e := events[..|events| - 1], events[|events| - 1];
      assert events == before + [e];
      CountersMeanWhatTheySay(c, bounded, before);
      FinalAppend(c, bounded, FRESH, before, e);
      if e.Result? {
        ResultKeepsMeaning(c, bounded, Reports(before), Final(c, bounded, FRESH, before), e.id, e.report);
      }
    }
  }

  // ----- when a call is refused -----

  /** The last n records are the same call, under a name. */
  ghost predicate EndsRepeating(h: seq<Record>, n: int) {
    && 1 <= n <= |h| && h[|h| - 1].id != ""
    && forall i :: |h| - n <= i < |h| ==> h[i].id == h[|h| - 1].id && h[i].hash == h[|h| - 1].hash
  }

  /** For an even window of at least four: the last n records swing between two different calls,
      both under names. */
  ghost predicate EndsAlternating(h: seq<Record>, n: int) {
    && 4 <= n <= |h| && n % 2 == 0
    && var last, other := h[|h| - 1], h[|h| - 2];
    && last.id != "" && other.id != "" && !(last.id == other.id && last.hash == other.hash)
    && forall i :: |h| - n <= i < |h| ==>
         var r := if (|h| - 1 - i) % 2 == 0 then last else other; h[i].id == r.id && h[i].hash == r.hash
  }

  /** The last n results failed with the same message. */
  ghost predicate EndsFailing(rs: seq<Report>, n: int) {
    1 <= n <= |rs| && rs[|rs| - 1].error != "" && forall i :: |rs| - n <= i < |rs| ==> rs[i].error == rs[|rs| - 1].error
  }

  /** The last n results made no progress: each touched a path touched before, or none at all and
      was no coordination output. */
  ghost predicate EndsStalling(rs: seq<Report>, n: int) {
    1 <= n <= |rs| && forall i :: |rs| - n <= i < |rs| ==> Idle(rs, i)
  }

  ghost predicate Idle(rs: seq<Report>, i: nat)
    requires i < |rs|
  {
    if rs[i].path != "" then exists j :: 0 <= j < i && rs[j].path == rs[i].path else !rs[i].coordinated
  }

  lemma IdleMeans(rs: seq<Report>, i: nat)
    requires i < |rs|
    ensures Idle(rs, i) <==> !Progressed(rs, i)
  {
    if rs[i].path != "" {
      var before := rs[..i];
      if Idle(rs, i) {
        var j :| 0 <= j < i && rs[j].path == rs[i].path;
        assert before[j].path == rs[i].path;
      }
      if !Progressed(rs, i) {
        var j :| 0 <= j < |before| && before[j].path != "" && before[j].path == rs[i].path;
        assert rs[j].path == rs[i].path;
      }
    }
  }

  /** The answer a call deserves after a trace: refused exactly if one of the four patterns shows,
      for the first of them, with its length and the calls or messages that make it up. */
  ghost predicate RightAnswer(c: Config, events: seq<Event>, call: Call, v: Option<Alarm>)
    requires c.Valid()
  {
    var rs, past := Reports(events), Final(c, false, FRESH, events).history;
    var h := past + [Opened(call)];
    if EndsRepeating(h, c.identical) then v.Some? && ShowsLoop(v.value, IdenticalCall, h, c.identical)
    else if EndsAlternating(h, c.oscillation) then v.Some? && ShowsLoop(v.value, Oscillating, h, c.oscillation)
    else if EndsFailing(rs, c.fixation) then v.Some? && ShowsFixation(v.value, rs, past, c.fixation)
    else if EndsStalling(rs, c.stall) then v.Some? && ShowsStall(v.value, rs, past, c.stall)
    else v.None?
  }

  ghost predicate ShowsLoop(a: Alarm, kind: Kind, h: seq<Record>, n: nat) {
    a.kind == kind && a.count == n && ShowsCalls(a.evidence, h, n)
  }

  ghost predicate ShowsFixation(a: Alarm, rs: seq<Report>, past: seq<Record>, n: nat)
    requires rs != []
  {
    && a.kind == ErrorFixation && a.count >= n && Streak(rs, a.count, rs[|rs| - 1].error)
    && a.evidence == Errors(Tail(past, n))
  }

  ghost predicate ShowsStall(a: Alarm, rs: seq<Report>, past: seq<Record>, n: nat) {
    a.kind == ProgressStall && a.count >= n && Stalled(rs, a.count) && ShowsCalls(a.evidence, past, n)
  }

  /** The last n calls, or all if there are fewer, as "id:hash". */
  ghost predicate ShowsCalls(evidence: seq<string>, h: seq<Record>, n: nat) {
    var d := if |h| < n then 0 else |h| - n;
    |evidence| == |h| - d && forall i :: 0 <= i < |evidence| ==> evidence[i] == h[d + i].id + ":" + h[d + i].hash
  }

  /** The messages shown are those of the records that have one, in order. */
  lemma {:induction false} ErrorsAppend(h: seq<Record>, r: Record)
    ensures Errors([]) == [] && Errors(h + [r]) == Errors(h) + if r.error == "" then [] else [r.error]
    decreases |h|
  {
    if h == [] {
      assert h + [r] == [r] && [r][1..] == [];
    } else {
      assert (h + [r])[1..] == h[1..] + [r];
      ErrorsAppend(h[1..], r);
    }
  }

  /** The messages among the results. */
  ghost function Messages(rs: seq<Report>): seq<string> {
    if rs == [] then []
    else Messages(rs[..|rs| - 1]) + if rs[|rs| - 1].error == "" then [] else [rs[|rs| - 1].error]
  }

  /** The paths among the results, in the order and as often as they were touched. */
  ghost function Paths(rs: seq<Report>): seq<string> {
    if rs == [] then [] else Paths(rs[..|rs| - 1]) + if rs[|rs| - 1].path == "" then [] else [rs[|rs| - 1].path]
  }

  ghost function Touched(h: seq<Record>): seq<string> {
    if h == [] then [] else Touched(h[..|h| - 1]) + if h[|h| - 1].path == "" then [] else [h[|h| - 1].path]
  }

  /** The record holds what was reported. */
  ghost predicate Complete(rs: seq<Report>, h: seq<Record>) {
    Errors(h) == Messages(rs) && Touched(h) == Paths(rs)
  }

  lemma LastRecord(front: seq<Record>, r: Record)
    ensures Errors(front + [r]) == Errors(front) + if r.error == "" then [] else [r.error]
    ensures Touched(front + [r]) == Touched(front) + if r.path == "" then [] else [r.path]
  {
    ErrorsAppend(front, r);
    assert (front + [r])[..|front|] == front;
  }

  lemma LastReport(rs: seq<Report>, r: Report)
    ensures Messages(rs + [r]) == Messages(rs) + if r.error == "" then [] else [r.error]
    ensures Paths(rs + [r]) == Paths(rs) + if r.path == "" then [] else [r.path]
  {
    assert (rs + [r])[..|rs|] == rs;
  }

  lemma NotedIsComplete(c: Config, rs: seq<Report>, h: seq<Record>, id: string, r: Report)
    requires c.Valid() && Complete(rs, h)
    ensures Complete(rs + [r], Noted(c, false, h, id, r))
  {
    LastReport(rs, r);
    if Unanswered(h, id) {
      AnsweredIsComplete(h, h[|h| - 1].(error := r.error, path := r.path));
    } else {
      LastRecord(h, Record(id, "", r.error, r.path));
    }
  }

  lemma AnsweredIsComplete(h: seq<Record>, last: Record)
    requires h != [] && h[|h| - 1].error == "" && h[|h| - 1].path == ""
    ensures Errors(h[|h| - 1 := last]) == Errors(h) + if last.error == "" then [] else [last.error]
    ensures Touched(h[|h| - 1 := last]) == Touched(h) + if last.path == "" then [] else [last.path]
  {
    var front := h[..|h| - 1];
    assert h[|h| - 1 := last] == front + [last] by { CutLast(h, last); }
    LastRecord(front, last);
    assert Errors(h) == Errors(front) && Touched(h) == Touched(front) by {
      assert h == front + [h[|h| - 1]];
      LastRecord(front, h[|h| - 1]);
    }
  }

  lemma CutLast(h: seq<Record>, last: Record)
    requires h != []
    ensures h[|h| - 1 := last] == h[..|h| - 1] + [last]
  {}

  /** After every trace the full record holds every message and every path reported since the last
      reset, in order: completing a call's record never overwrites what an earlier result left. */
  lemma {:induction false} NoResultIsForgotten(c: Config, events: seq<Event>)
    requires c.Valid()
    ensures Complete(Reports(events), Final(c, false, FRESH, events).history)
    decreases |events|
  {
    if events == [] {
      assert Errors([]) == [] && Touched([]) == [];
    } else {
      var before, e := events[..|events| - 1], events[|events| - 1];
      var s := Final(c, false, FRESH, before);
      assert events == before + [e];
      NoResultIsForgotten(c, before);
      FinalAppend(c, false, FRESH, before, e);
      match e
      case Result(id, r) => NotedIsComplete(c, Reports(before), s.history, id, r);
      case Check(call) => CheckIsComplete(c, Reports(before), s, call);
      case Reset => assert Errors([]) == [] && Touched([]) == [];
    }
  }

  lemma CheckIsComplete(c: Config, rs: seq<Report>, s: State, call: Call)
    requires c.Valid() && Complete(rs, s.history)
    ensures Complete(rs, AfterCheck(c, false, s, call).history)
  {
    LastRecord(s.history, Opened(call));
    assert Errors(s.history) + [] == Errors(s.history) && Touched(s.history) + [] == Touched(s.history);
  }

  lemma RepeatingMeans(c: Config, h: seq<Record>)
    requires c.Valid() && h != [] && h[|h| - 1].hash != ""
    ensures IdenticalTail(c, h) <==> EndsRepeating(h, c.identical)
  {
    if |h| >= c.identical {
      var t, d := Tail(h, c.identical), |h| - c.identical;
      assert forall i :: 0 <= i < |t| ==> t[i] == h[d + i];
      assert forall i :: d <= i < |h| ==> h[i] == t[i - d];
    }
  }

  lemma AlternatingMeans(c: Config, h: seq<Record>)
    requires c.Valid()
    ensures OscillatingTail(c, h) <==> EndsAlternating(h, c.oscillation)
  {
    var m := c.oscillation;
    if 4 <= m <= |h| && m % 2 == 0 {
      var t, d := Tail(h, m), |h| - m;
      forall i | 0 <= i < m ensures t[i] == h[d + i] && ((|h| - 1 - (d + i)) % 2 == 0 <==> i % 2 == 1) {
        ParityFromEnd(m, i);
      }
      if Alternates(t) { AlternatesFromEnd(h, t, m); }
      if EndsAlternating(h, m) { EndFromAlternates(h, t, m); }
    }
  }

  lemma ParityFromEnd(m: nat, i: nat)
    requires m % 2 == 0 && i < m
    ensures (m - 1 - i) % 2 == 0 <==> i % 2 == 1
  {}

  lemma AlternatesFromEnd(h: seq<Record>, t: seq<Record>, m: nat)
    requires 4 <= m <= |h| && m % 2 == 0 && t == h[|h| - m..] && Alternates(t)
    ensures EndsAlternating(h, m)
  {
    assert SameCall(t[m - 1], t[1]) && SameCall(t[m - 2], t[0]) by { assert (m - 1) % 2 == 1 && (m - 2) % 2 == 0; }
    forall i | |h| - m <= i < |h|
      ensures var r := if (|h| - 1 - i) % 2 == 0 then h[|h| - 1] else h[|h| - 2]; SameCall(h[i], r)
    {
      var j := i - (|h| - m);
      ParityFromEnd(m, j);
      assert SameCall(t[j], t[j % 2]);
    }
  }

  lemma EndFromAlternates(h: seq<Record>, t: seq<Record>, m: nat)
    requires 4 <= m <= |h| && m % 2 == 0 && t == h[|h| - m..] && EndsAlternating(h, m)
    ensures Alternates(t)
  {
    var last, other := h[|h| - 1], h[|h| - 2];
    forall j | 0 <= j < m ensures SameCall(t[j], if j % 2 == 1 then last else other) {
      ParityFromEnd(m, j);
      assert h[|h| - m + j] == t[j];
    }
    forall j | 0 <= j < m ensures SameCall(t[j], t[j % 2]) {
      assert SameCall(t[j], if j % 2 == 1 then last else other);
      assert SameCall(t[j % 2], if (j % 2) % 2 == 1 then last else other);
    }
  }

  lemma StreakMeans(rs: seq<Report>, k: nat, message: string, n: nat)
    requires 1 <= n && Streak(rs, k, message)
    ensures k >= n && message != "" <==> EndsFailing(rs, n)
    ensures k >= n && message != "" ==> rs != [] && rs[|rs| - 1].error == message
  {
    assert 0 < k < n && n <= |rs| ==> |rs| - n <= |rs| - k - 1 < |rs|;
  }

  lemma StallMeans(rs: seq<Report>, k: nat, n: nat)
    requires 1 <= n && Stalled(rs, k)
    ensures k >= n <==> EndsStalling(rs, n)
  {
    forall i | 0 <= i < |rs| ensures Idle(rs, i) <==> !Progressed(rs, i) { IdleMeans(rs, i); }
    assert k < n <= |rs| ==> |rs| - n <= |rs| - k - 1 < |rs|;
  }

  lemma KeysShow(h: seq<Record>, n: nat)
    ensures ShowsCalls(Keys(Tail(h, n)), h, n)
  {}

  lemma CountersAnswer(c: Config, s: State, rs: seq<Report>, call: Call)
    requires c.Valid() && Meaning(rs, s)
    requires !IdenticalTail(c, s.history + [Opened(call)]) && !OscillatingTail(c, s.history + [Opened(call)])
    ensures var v := Verdict(c, s, call);
            if EndsFailing(rs, c.fixation) then v.Some? && ShowsFixation(v.value, rs, s.history, c.fixation)
            else if EndsStalling(rs, c.stall) then v.Some? && ShowsStall(v.value, rs, s.history, c.stall)
            else v.None?
  {
    StreakMeans(rs, s.streak, s.lastError, c.fixation);
    StallMeans(rs, s.noProgress, c.stall);
    KeysShow(s.history, c.stall);
  }

  lemma LoopsAnswer(c: Config, s: State, call: Call)
    requires c.Valid()
    ensures var h, v := s.history + [Opened(call)], Verdict(c, s, call);
            && (IdenticalTail(c, h) ==> v.Some? && ShowsLoop(v.value, IdenticalCall, h, c.identical))
            && (!IdenticalTail(c, h) && OscillatingTail(c, h) ==>
                  v.Some? && ShowsLoop(v.value, Oscillating, h, c.oscillation))
  {
    KeysShow(s.history + [Opened(call)], c.identical);
    KeysShow(s.history + [Opened(call)], c.oscillation);
  }

  /** Over every trace the detector's verdict is the right answer. */
  lemma VerdictIsRight(c: Config, events: seq<Event>, call: Call)
    requires c.Valid()
    ensures RightAnswer(c, events, call, Verdict(c, Final(c, false, FRESH, events), call))
  {
    var rs, s := Reports(events), Final(c, false, FRESH, events);
    var h := s.history + [Opened(call)];
    CountersMeanWhatTheySay(c, false, events);
    RepeatingMeans(c, h);
    AlternatingMeans(c, h);
    LoopsAnswer(c, s, call);
    if !IdenticalTail(c, h) && !OscillatingTail(c, h) { CountersAnswer(c, s, rs, call); }
  }

  // ----- what a run can admit -----

  /** The call an event gets past the detector, if any. */
  function Gain(c: Config, s: State, e: Event): seq<Call>
    requires c.Valid()
  {
    if e.Check? && Verdict(c, s, e.call).None? then [e.call] else []
  }

  /** The calls a trace gets past the detector. */
  function AdmittedCalls(c: Config, bounded: bool, s: State, events: seq<Event>): seq<Call>
    requires c.Valid()
    decreases |events|
  {
    if events == [] then []
    else Gain(c, s, events[0]) + AdmittedCalls(c, bounded, Step(c, bounded, s, events[0]), events[1..])
  }

  /** No resets, and every result finds the latest record open and under its own id. */
  predicate Paired(c: Config, bounded: bool, s: State, events: seq<Event>)
    requires c.Valid()
    decreases |events|
  {
    events == [] ||
    (&& !events[0].Reset? && (events[0].Result? ==> Unanswered(s.history, events[0].id))
     && Paired(c, bounded, Step(c, bounded, s, events[0]), events[1..]))
  }

  /** Two calls the detector cannot tell apart. */
  predicate SameAs(a: Call, b: Call) {
    a.id == b.id && HashArgs(a.args) == HashArgs(b.args)
  }

  /** A stretch of equal calls. */
  predicate RepeatedCalls(w: seq<Call>) {
    w != [] && w[0].id != "" && forall k :: 0 <= k < |w| ==> SameAs(w[k], w[0])
  }

  /** A stretch of calls alternating between two different ones. */
  predicate AlternatingCalls(w: seq<Call>) {
    && |w| >= 2 && w[0].id != "" && w[1].id != "" && !SameAs(w[0], w[1])
    && forall k :: 0 <= k < |w| ==> SameAs(w[k], w[k % 2])
  }

  function Stretch(calls: seq<Call>, i: nat, n: nat): seq<Call>
    requires i + n <= |calls|
  {
    calls[i..i + n]
  }

  predicate NeverRepeats(calls: seq<Call>, n: nat) {
    forall i: nat :: i + n <= |calls| ==> !RepeatedCalls(Stretch(calls, i, n))
  }

  predicate NeverAlternates(calls: seq<Call>, n: nat) {
    forall i: nat :: i + n <= |calls| ==> !AlternatingCalls(Stretch(calls, i, n))
  }

  predicate NoLoop(c: Config, calls: seq<Call>)
    requires c.Valid()
  {
    && NeverRepeats(calls, c.identical)
    && (c.oscillation >= 4 && c.oscillation % 2 == 0 ==> NeverAlternates(calls, c.oscillation))
  }

  lemma AppendStretch(calls: seq<Call>, call: Call, n: nat)
    ensures forall i: nat :: i + n <= |calls| ==> Stretch(calls + [call], i, n) == Stretch(calls, i, n)
  {}

  lemma AppendNeverRepeats(calls: seq<Call>, call: Call, n: nat)
    requires NeverRepeats(calls, n)
    requires |calls| + 1 >= n ==> !RepeatedCalls(Stretch(calls + [call], |calls| + 1 - n, n))
    ensures NeverRepeats(calls + [call], n)
  {
    AppendStretch(calls, call, n);
  }

  lemma AppendNeverAlternates(calls: seq<Call>, call: Call, n: nat)
    requires NeverAlternates(calls, n)
    requires |calls| + 1 >= n ==> !AlternatingCalls(Stretch(calls + [call], |calls| + 1 - n, n))
    ensures NeverAlternates(calls + [call], n)
  {
    AppendStretch(calls, call, n);
  }

  /** The records stand for exactly these calls. */
  predicate Mirrors(h: seq<Record>, calls: seq<Call>) {
    && |h| == |calls|
    && forall i :: 0 <= i < |h| ==> h[i].id == calls[i].id && h[i].hash == HashArgs(calls[i].args)
  }

  lemma MirrorsSame(h: seq<Record>, w: seq<Call>)
    requires Mirrors(h, w)
    ensures Repeats(h) <==> RepeatedCalls(w)
    ensures Alternates(h) <==> AlternatingCalls(w)
  {
    if RepeatedCalls(w) { assert forall k :: 0 <= k < |w| ==> SameAs(w[k], w[0]); }
    if Repeats(h) { assert forall k :: 0 <= k < |h| ==> SameCall(h[k], h[0]); }
    if AlternatingCalls(w) {
      forall k | 0 <= k < |h| ensures SameCall(h[k], h[k % 2]) { assert SameAs(w[k], w[k % 2]); }
    }
    if Alternates(h) {
      forall k | 0 <= k < |w| ensures SameAs(w[k], w[k % 2]) { assert SameCall(h[k], h[k % 2]); }
    }
  }

  lemma LastStretch(h: seq<Record>, calls: seq<Call>, n: nat)
    requires Mirrors(h, calls) && n <= |calls|
    ensures Mirrors(Tail(h, n), Stretch(calls, |calls| - n, n))
  {
    var d, t, w := |calls| - n, Tail(h, n), Stretch(calls, |calls| - n, n);
    assert |t| == n == |w|;
    forall i | 0 <= i < n ensures t[i].id == w[i].id && t[i].hash == HashArgs(w[i].args) {
      assert t[i] == h[d + i] && w[i] == calls[d + i];
    }
  }

  lemma PreviewMirrors(h: seq<Record>, calls: seq<Call>, call: Call, n: nat)
    requires Mirrors(h, calls) && n <= |calls| + 1
    ensures |h + [Opened(call)]| == |calls| + 1
    ensures Repeats(Tail(h + [Opened(call)], n)) <==> RepeatedCalls(Stretch(calls + [call], |calls| + 1 - n, n))
    ensures Alternates(Tail(h + [Opened(call)], n)) <==> AlternatingCalls(Stretch(calls + [call], |calls| + 1 - n, n))
  {
    MirrorsAppend(h, calls, call);
    LastStretch(h + [Opened(call)], calls + [call], n);
    MirrorsSame(Tail(h + [Opened(call)], n), Stretch(calls + [call], |calls| + 1 - n, n));
  }

  lemma MirrorsAppend(h: seq<Record>, calls: seq<Call>, call: Call)
    requires Mirrors(h, calls)
    ensures Mirrors(h + [Opened(call)], calls + [call])
  {}

  lemma MirrorsNoted(h: seq<Record>, calls: seq<Call>, r: Record)
    requires Mirrors(h, calls) && h != [] && SameCall(r, h[|h| - 1])
    ensures Mirrors(h[|h| - 1 := r], calls)
  {}

  lemma AdmittedEndsWell(c: Config, s: State, calls: seq<Call>, call: Call)
    requires c.Valid() && Mirrors(s.history, calls) && NoLoop(c, calls)
    requires Verdict(c, s, call).None?
    ensures NoLoop(c, calls + [call])
  {
    var n, m := c.identical, c.oscillation;
    if n <= |calls| + 1 { PreviewMirrors(s.history, calls, call, n); }
    AppendNeverRepeats(calls, call, n);
    if m >= 4 && m % 2 == 0 {
      if m <= |calls| + 1 { PreviewMirrors(s.history, calls, call, m); }
      AppendNeverAlternates(calls, call, m);
    }
  }

  ghost predicate Clean(c: Config, s: State, calls: seq<Call>)
    requires c.Valid()
  {
    Mirrors(s.history, calls) && NoLoop(c, calls)
  }

  lemma CheckKeepsClean(c: Config, s: State, calls: seq<Call>, call: Call)
    requires c.Valid() && Clean(c, s, calls) && Verdict(c, s, call).None?
    ensures Clean(c, AfterCheck(c, false, s, call), calls + [call])
  {
    AdmittedEndsWell(c, s, calls, call);
  }

  lemma ResultKeepsClean(c: Config, s: State, calls: seq<Call>, id: string, r: Report)
    requires c.Valid() && Clean(c, s, calls) && Unanswered(s.history, id)
    ensures Clean(c, AfterResult(c, false, s, id, r), calls)
  {
    MirrorsNoted(s.history, calls, s.history[|s.history| - 1].(error := r.error, path := r.path));
  }

  lemma StepKeepsClean(c: Config, s: State, calls: seq<Call>, e: Event)
    requires c.Valid() && Clean(c, s, calls) && !e.Reset? && (e.Result? ==> Unanswered(s.history, e.id))
    ensures Clean(c, Step(c, false, s, e), calls + Gain(c, s, e))
  {
    if e.Result? { ResultKeepsClean(c, s, calls, e.id, e.report); }
    if Gain(c, s, e) != [] { CheckKeepsClean(c, s, calls, e.call); } else { assert calls + Gain(c, s, e) == calls; }
  }

  lemma AdmittedStep(c: Config, s: State, before: seq<Call>, e: Event, rest: seq<Event>)
    requires c.Valid()
    ensures before + AdmittedCalls(c, false, s, [e] + rest)
            == before + Gain(c, s, e) + AdmittedCalls(c, false, Step(c, false, s, e), rest)
  {
    assert ([e] + rest)[1..] == rest;
  }

  lemma {:induction false} PairedHasNoLoop(c: Config, s: State, before: seq<Call>, events: seq<Event>)
    requires c.Valid() && Clean(c, s, before) && Paired(c, false, s, events)
    ensures NoLoop(c, before + AdmittedCalls(c, false, s, events))
    decreases |events|
  {
    if events == [] {
      assert before + AdmittedCalls(c, false, s, events) == before;
    } else {
      StepKeepsClean(c, s, before, events[0]);
      PairedHasNoLoop(c, Step(c, false, s, events[0]), before + Gain(c, s, events[0]), events[1..]);
      AdmittedStep(c, s, before, events[0], events[1..]);
      assert [events[0]] + events[1..] == events;
    }
  }

  lemma SameGain(c: Config, s: State, full: State, e: Event)
    requires c.Valid() && Window(c, s, full)
    ensures Gain(c, s, e) == Gain(c, full, e) && Window(c, Step(c, true, s, e), Step(c, false, full, e))
    ensures e.Result? ==> (Unanswered(s.history, e.id) <==> Unanswered(full.history, e.id))
  {
    if e.Check? { SameVerdict(c, s, full, e.call); }
    if full.history != [] { TailOfUpdate(full.history, full.history[|full.history| - 1], Limit(c)); }
    StepKeepsWindow(c, s, full, e);
  }

  /** Trimming changes neither what is admitted nor whether results find their calls. */
  lemma {:induction false} SameAdmitted(c: Config, s: State, full: State, events: seq<Event>)
    requires c.Valid() && Window(c, s, full)
    ensures AdmittedCalls(c, true, s, events) == AdmittedCalls(c, false, full, events)
    ensures Paired(c, true, s, events) <==> Paired(c, false, full, events)
    decreases |events|
  {
    if events != [] {
      SameGain(c, s, full, events[0]);
      SameAdmitted(c, Step(c, true, s, events[0]), Step(c, false, full, events[0]), events[1..]);
    }
  }

  /** In every trace without resets whose results each find their call's record open, overlapping
      calls included, the calls let through never contain IdenticalCallThreshold equal calls in a
      row, nor, for an even window of at least four, a full window alternating between two
      different calls. */
  lemma NoLoopIsEverAdmitted(c: Config, events: seq<Event>)
    requires c.Valid() && Paired(c, true, FRESH, events)
    ensures NoLoop(c, AdmittedCalls(c, true, FRESH, events))
  {
    SameAdmitted(c, FRESH, FRESH, events);
    PairedHasNoLoop(c, FRESH, [], events);
    assert [] + AdmittedCalls(c, false, FRESH, events) == AdmittedCalls(c, false, FRESH, events);
  }

  /** One call an agent attempts, and the result it would get. */
  datatype Turn = Turn(call: Call, report: Report)

  /** The trace of an agent that makes no refused call and waits for each result. */
  function Played(c: Config, s: State, turns: seq<Turn>): seq<Event>
    requires c.Valid()
    decreases |turns|
  {
    if turns == [] then []
    else
      var call, result := Check(turns[0].call), Result(turns[0].call.id, turns[0].report);
      var t := Step(c, true, s, call);
      if Verdict(c, s, turns[0].call).Some? then [call] + Played(c, t, turns[1..])
      else [call, result] + Played(c, Step(c, true, t, result), turns[1..])
  }

  /** Such an agent's results always find their calls, whatever it attempts. */
  lemma {:induction false} AlternationIsPaired(c: Config, s: State, turns: seq<Turn>)
    requires c.Valid()
    ensures Paired(c, true, s, Played(c, s, turns))
    decreases |turns|
  {
    if turns != [] {
      var call, result := Check(turns[0].call), Result(turns[0].call.id, turns[0].report);
      var t := Step(c, true, s, call);
      if Verdict(c, s, turns[0].call).Some? {
        AlternationIsPaired(c, t, turns[1..]);
        PairedCons(c, s, call, Played(c, t, turns[1..]));
      } else {
        var u := Step(c, true, t, result);
        AlternationIsPaired(c, u, turns[1..]);
        AdmittedIsOpen(c, s, turns[0].call);
        PairedCons(c, t, result, Played(c, u, turns[1..]));
        PairedCons(c, s, call, [result] + Played(c, u, turns[1..]));
        assert [call] + ([result] + Played(c, u, turns[1..])) == Played(c, s, turns);
      }
    }
  }

  lemma PairedCons(c: Config, s: State, e: Event, rest: seq<Event>)
    requires c.Valid() && !e.Reset? && (e.Result? ==> Unanswered(s.history, e.id))
    requires Paired(c, true, Step(c, true, s, e), rest)
    ensures Paired(c, true, s, [e] + rest)
  {
    assert ([e] + rest)[1..] == rest;
  }

  lemma AdmittedIsOpen(c: Config, s: State, call: Call)
    requires c.Valid() && Verdict(c, s, call).None?
    ensures Unanswered(Step(c, true, s, Check(call)).history, call.id)
  {}

  // ----- and what it cannot prevent -----

  function Repeated<T>(x: T, n: nat): (r: seq<T>)
    ensures |r| == n && forall i :: 0 <= i < n ==> r[i] == x
  {
    seq(n, i => x)
  }

  /** No resets, and every result is that of an admitted call still waiting for one; `open` are
      the ids of the calls in flight. */
  predicate OwnResults(c: Config, bounded: bool, s: State, open: multiset<string>, events: seq<Event>)
    requires c.Valid()
    decreases |events|
  {
    if events == [] then true
    else
      var t, rest := Step(c, bounded, s, events[0]), events[1..];
      match events[0]
      case Check(call) =>
        OwnResults(c, bounded, t, if Gain(c, s, events[0]) == [] then open else open + multiset{call.id}, rest)
      case Result(id, _) => id in open && OwnResults(c, bounded, t, open - multiset{id}, rest)
      case Reset => false
  }

  lemma {:induction false} SameOwnResults(c: Config, s: State, full: State, open: multiset<string>, events: seq<Event>)
    requires c.Valid() && Window(c, s, full)
    ensures OwnResults(c, true, s, open, events) <==> OwnResults(c, false, full, open, events)
    decreases |events|
  {
    if events != [] && !events[0].Reset? {
      SameGain(c, s, full, events[0]);
      var next := if events[0].Result? then open - multiset{events[0].id}
                  else if Gain(c, s, events[0]) == [] then open
                  else open + multiset{events[0].call.id};
      SameOwnResults(c, Step(c, true, s, events[0]), Step(c, false, full, events[0]), next, events[1..]);
    }
  }

  /** What answers a call while others are in flight. */
  function Answered(b: Call, p: string): Event {
    Result(b.id, Report("", p, false))
  }

  /** Another call, this call one short of the threshold, the other call's result, this call. */
  function Overlapping(c: Config, a: Call, b: Call, p: string): seq<Event>
    requires c.Valid()
  {
    [Check(b)] + (Repeated(Check(a), c.identical - 1) + [Answered(b, p), Check(a)])
  }

  /** So far the other call and n times this one, none answered. */
  function InFlight(b: Call, a: Call, n: nat): State {
    FRESH.(history := [Opened(b)] + Repeated(Opened(a), n))
  }

  /** A call passes if neither window of the preview shows a loop and the counters are at rest. */
  lemma QuietIsAdmitted(c: Config, s: State, call: Call, preview: seq<Record>)
    requires c.Valid() && preview == s.history + [Opened(call)] && s.streak == 0 && s.noProgress == 0
    requires !IdenticalTail(c, preview) && !OscillatingTail(c, preview)
    ensures Gain(c, s, Check(call)) == [call] && Step(c, false, s, Check(call)) == s.(history := preview)
  {}

  lemma MixedTail(c: Config, h: seq<Record>, i: nat, j: nat)
    requires c.Valid() && |h| - c.identical <= i < j < |h| && !SameCall(h[i], h[j])
    ensures !IdenticalTail(c, h)
  {
    if |h| >= c.identical {
      var t, d := Tail(h, c.identical), |h| - c.identical;
      assert t[i - d] == h[i] && t[j - d] == h[j];
    }
  }

  /** A window whose last two calls are the same does not alternate. */
  lemma EndsTwice(c: Config, h: seq<Record>)
    requires c.Valid() && (|h| >= 4 ==> SameCall(h[|h| - 1], h[|h| - 2]))
    ensures !OscillatingTail(c, h)
  {
    var m := c.oscillation;
    if m >= 4 && m % 2 == 0 && m <= |h| {
      var t := Tail(h, m);
      assert t[m - 1] == h[|h| - 1] && t[m - 2] == h[|h| - 2];
      AlternationApart(t, m - 1, m - 2);
    }
  }

  /** Nor does one that differs two calls apart. */
  lemma DiffersTwoApart(c: Config, h: seq<Record>)
    requires c.Valid() && (|h| >= 4 ==> !SameCall(h[|h| - 2], h[|h| - 4]))
    ensures !OscillatingTail(c, h)
  {
    var m := c.oscillation;
    if m >= 4 && m % 2 == 0 && m <= |h| {
      var t := Tail(h, m);
      assert t[m - 2] == h[|h| - 2] && t[m - 4] == h[|h| - 4];
      AlternationTogether(t, m - 2, m - 4);
    }
  }

  lemma AlternationApart(t: seq<Record>, i: nat, j: nat)
    requires i < |t| && j < |t| && i == j + 1 && j % 2 == 0
    ensures Alternates(t) ==> !SameCall(t[i], t[j])
  {
    if Alternates(t) { assert SameCall(t[i], t[i % 2]) && SameCall(t[j], t[j % 2]); }
  }

  lemma AlternationTogether(t: seq<Record>, i: nat, j: nat)
    requires i < |t| && j < |t| && i == j + 2
    ensures Alternates(t) ==> SameCall(t[i], t[j])
  {
    assert i % 2 == j % 2;
    if Alternates(t) { assert SameCall(t[i], t[i % 2]) && SameCall(t[j], t[j % 2]); }
  }

  lemma FirstIsAdmitted(c: Config, a: Call, b: Call)
    requires c.Valid() && c.identical >= 2
    ensures Gain(c, FRESH, Check(b)) == [b] && Step(c, false, FRESH, Check(b)) == InFlight(b, a, 0)
  {
    var preview := [Opened(b)] + Repeated(Opened(a), 0);
    assert preview == FRESH.history + [Opened(b)];
    QuietIsAdmitted(c, FRESH, b, preview);
  }

  lemma FewAreAdmitted(c: Config, a: Call, b: Call, n: nat)
    requires c.Valid() && n + 1 < c.identical && a.id != b.id
    ensures Leads(c, InFlight(b, a, n), a, InFlight(b, a, n + 1))
  {
    var preview := [Opened(b)] + Repeated(Opened(a), n + 1);
    assert preview == InFlight(b, a, n).history + [Opened(a)];
    assert preview[0] == Opened(b) && forall i :: 0 < i < |preview| ==> preview[i] == Opened(a);
    MixedTail(c, preview, 0, 1);
    EndsTwice(c, preview);
    QuietIsAdmitted(c, InFlight(b, a, n), a, preview);
  }

  /** The call is admitted in the one state and leads to the other. */
  ghost predicate Leads(c: Config, s: State, a: Call, t: State)
    requires c.Valid()
  {
    Gain(c, s, Check(a)) == [a] && Step(c, false, s, Check(a)) == t
  }

  /** A call admitted in each of these states in turn. */
  lemma {:induction false} AllAreAdmitted(c: Config, a: Call, states: seq<State>, rest: seq<Event>)
    requires c.Valid() && states != []
    requires forall i :: 0 <= i < |states| - 1 ==> Leads(c, states[i], a, states[i + 1])
    ensures var k := |states| - 1;
            AdmittedCalls(c, false, states[0], Repeated(Check(a), k) + rest)
            == Repeated(a, k) + AdmittedCalls(c, false, states[k], rest)
    decreases |states|
  {
    var k := |states| - 1;
    var events := Repeated(Check(a), k) + rest;
    if k == 0 {
      assert events == rest && Repeated(a, 0) == [];
    } else {
      AllAreAdmitted(c, a, states[1..], rest);
      var others := Repeated(Check(a), k - 1) + rest;
      RepeatedFront(Check(a), k, rest);
      AdmittedFirst(c, states[0], Check(a), others);
      RepeatedFront(a, k, AdmittedCalls(c, false, states[k], rest));
    }
  }

  lemma RepeatsAreAdmitted(c: Config, a: Call, b: Call, rest: seq<Event>)
    requires c.Valid() && a.id != b.id
    ensures var k := c.identical - 1;
            AdmittedCalls(c, false, InFlight(b, a, 0), Repeated(Check(a), k) + rest)
            == Repeated(a, k) + AdmittedCalls(c, false, InFlight(b, a, k), rest)
  {
    var states := seq(c.identical, i requires 0 <= i < c.identical => InFlight(b, a, i));
    forall i | 0 <= i < |states| - 1 ensures Leads(c, states[i], a, states[i + 1]) {
      FewAreAdmitted(c, a, b, i);
    }
    AllAreAdmitted(c, a, states, rest);
  }

  lemma AdmittedFirst(c: Config, s: State, e: Event, rest: seq<Event>)
    requires c.Valid()
    ensures AdmittedCalls(c, false, s, [e] + rest)
            == Gain(c, s, e) + AdmittedCalls(c, false, Step(c, false, s, e), rest)
  {
    assert ([e] + rest)[1..] == rest;
  }

  lemma RepeatedFront<T>(x: T, k: nat, rest: seq<T>)
    requires k > 0
    ensures Repeated(x, k) + rest == [x] + (Repeated(x, k - 1) + rest)
  {}

  lemma RepeatedCons<T>(x: T, n: nat)
    requires n > 0
    ensures Repeated(x, n) == [x] + Repeated(x, n - 1)
  {}

  /** The history once the other call's result has come in after n calls. */
  function WithStray(b: Call, a: Call, n: nat, p: string): seq<Record> {
    [Opened(b)] + Repeated(Opened(a), n) + [Record(b.id, "", "", p)]
  }

  lemma ResultIsStray(c: Config, a: Call, b: Call, n: nat, p: string)
    requires c.Valid() && a.id != b.id && n > 0 && p != ""
    ensures Step(c, false, InFlight(b, a, n), Answered(b, p)) == State(WithStray(b, a, n, p), {p}, 0, 0, "")
  {
    var h := InFlight(b, a, n).history;
    assert h[|h| - 1] == Opened(a);
    assert !Unanswered(h, b.id);
    assert {} + {p} == {p};
  }

  lemma StrayHidesTheLoop(c: Config, a: Call, b: Call, p: string, modified: set<string>)
    requires c.Valid() && c.identical >= 2
    ensures Verdict(c, State(WithStray(b, a, c.identical - 1, p), modified, 0, 0, ""), a).None?
  {
    var n := c.identical - 1;
    var h, stray := WithStray(b, a, n, p), Record(b.id, "", "", p);
    var preview := h + [Opened(a)];
    assert |preview| == n + 3 && preview[n + 1] == stray && preview[n + 2] == Opened(a);
    assert preview[n - 1] == Opened(a) || preview[n - 1] == Opened(b);
    MixedTail(c, preview, n + 1, n + 2);
    DiffersTwoApart(c, preview);
    QuietIsAdmitted(c, State(h, modified, 0, 0, ""), a, preview);
  }

  lemma LastIsAdmitted(c: Config, a: Call, b: Call, p: string)
    requires c.Valid() && c.identical >= 2 && a.id != b.id && p != ""
    ensures AdmittedCalls(c, false, InFlight(b, a, c.identical - 1), [Answered(b, p), Check(a)]) == [a]
  {
    var s := InFlight(b, a, c.identical - 1);
    ResultIsStray(c, a, b, c.identical - 1, p);
    StrayHidesTheLoop(c, a, b, p, {p});
    OnlyTheLast(c, s, Step(c, false, s, Answered(b, p)), Answered(b, p), a);
  }

  lemma OnlyTheLast(c: Config, s: State, t: State, result: Event, a: Call)
    requires c.Valid() && result.Result? && t == Step(c, false, s, result) && Verdict(c, t, a).None?
    ensures AdmittedCalls(c, false, s, [result, Check(a)]) == [a]
  {
    assert [result, Check(a)][1..] == [Check(a)];
    assert AdmittedCalls(c, false, t, [Check(a)]) == [a] by { assert [Check(a)][1..] == []; }
  }

  lemma {:induction false} RepeatsAreOwn(c: Config, a: Call, b: Call, n: nat, k: nat, p: string, open: multiset<string>)
    requires c.Valid() && n + k < c.identical && a.id != b.id && b.id in open
    ensures OwnResults(c, false, InFlight(b, a, n), open, Repeated(Check(a), k) + [Answered(b, p), Check(a)])
    decreases k
  {
    var last := [Answered(b, p), Check(a)];
    var events := Repeated(Check(a), k) + last;
    if k == 0 {
      assert events == last && last[1..] == [Check(a)] && [Check(a)][1..] == [];
    } else {
      FewAreAdmitted(c, a, b, n);
      RepeatsAreOwn(c, a, b, n + 1, k - 1, p, open + multiset{a.id});
      assert events[0] == Check(a) && events[1..] == Repeated(Check(a), k - 1) + last by { RepeatedCons(Check(a), k); }
    }
  }

  /** The trace is one in which every result answers its own call. */
  lemma OverlappingIsOwn(c: Config, a: Call, b: Call, p: string)
    requires c.Valid() && c.identical >= 2 && a.id != b.id
    ensures OwnResults(c, true, FRESH, multiset{}, Overlapping(c, a, b, p))
  {
    FirstIsAdmitted(c, a, b);
    var rest := Repeated(Check(a), c.identical - 1) + [Answered(b, p), Check(a)];
    RepeatsAreOwn(c, a, b, 0, c.identical - 1, p, multiset{} + multiset{b.id});
    assert Overlapping(c, a, b, p)[0] == Check(b) && Overlapping(c, a, b, p)[1..] == rest;
    SameOwnResults(c, FRESH, FRESH, multiset{}, Overlapping(c, a, b, p));
  }

  /** Results that answer their own calls, but not the latest one, break the guarantee: for every
      threshold of at least two, any two calls and any path, all calls are let through, as many
      equal ones in a row as the threshold forbids. */
  lemma OverlappingCallsEscape(c: Config, a: Call, b: Call, p: string)
    requires c.Valid() && c.identical >= 2 && a.id != "" && a.id != b.id && p != ""
    ensures OwnResults(c, true, FRESH, multiset{}, Overlapping(c, a, b, p))
    ensures AdmittedCalls(c, true, FRESH, Overlapping(c, a, b, p)) == [b] + Repeated(a, c.identical)
    ensures !NeverRepeats(AdmittedCalls(c, true, FRESH, Overlapping(c, a, b, p)), c.identical)
  {
    var n := c.identical - 1;
    var last := [Answered(b, p), Check(a)];
    OverlappingIsOwn(c, a, b, p);
    SameAdmitted(c, FRESH, FRESH, Overlapping(c, a, b, p));
    FirstIsAdmitted(c, a, b);
    AdmittedStep(c, FRESH, [], Check(b), Repeated(Check(a), n) + last);
    RepeatsAreAdmitted(c, a, b, last);
    LastIsAdmitted(c, a, b, p);
    Assembled(a, b, n, AdmittedCalls(c, false, FRESH, Overlapping(c, a, b, p)));
  }

  lemma Assembled(a: Call, b: Call, n: nat, all: seq<Call>)
    requires [] + all == [] + [b] + (Repeated(a, n) + [a]) && a.id != ""
    ensures all == [b] + Repeated(a, n + 1) && !NeverRepeats(all, n + 1)
  {
    assert Repeated(a, n) + [a] == Repeated(a, n + 1) && [] + all == all;
    assert Stretch(all, 1, n + 1) == Repeated(a, n + 1);
    assert RepeatedCalls(Repeated(a, n + 1));
  }

  predicate Anonymous(calls: seq<Call>) {
    forall i :: 0 <= i < |calls| ==> calls[i].id == ""
  }

  lemma {:induction false} ThresholdOneAdmitsNoCall(c: Config, s: State, events: seq<Event>)
    requires c.Valid() && c.identical == 1
    ensures Anonymous(AdmittedCalls(c, true, s, events))
    decreases |events|
  {
    if events != [] {
      ThresholdOneAdmitsNoCall(c, Step(c, true, s, events[0]), events[1..]);
      if events[0].Check? {
        var preview := s.history + [Opened(events[0].call)];
        assert Tail(preview, 1) == [Opened(events[0].call)];
      }
    }
  }

  /** Of all traces in which every result answers its own call, the guarantee against repetition
      holds exactly for the threshold one, which admits no call at all. */
  lemma RepetitionIsPreventedExactly(c: Config)
    requires c.Valid()
    ensures (forall events :: OwnResults(c, true, FRESH, multiset{}, events) ==>
               NeverRepeats(AdmittedCalls(c, true, FRESH, events), c.identical))
            <==> c.identical == 1
  {
    if c.identical == 1 {
      forall events ensures NeverRepeats(AdmittedCalls(c, true, FRESH, events), 1) {
        ThresholdOneAdmitsNoCall(c, FRESH, events);
        var calls := AdmittedCalls(c, true, FRESH, events);
        forall i: nat | i + 1 <= |calls| ensures !RepeatedCalls(Stretch(calls, i, 1)) {
          assert Stretch(calls, i, 1)[0] == calls[i];
        }
      }
    } else {
      OverlappingCallsEscape(c, Call("edit", NoArgs), Call("read", NoArgs), "a");
    }
  }

  // ----- the detector object -----

  class Detector {
    const cfg: Config
    var history: seq<Record>
    var modified: set<string>
    var noProgress: nat
    var streak: nat
    var lastError: string
    ghost var trace: seq<Event>   // everything since the detector was made
    ghost var full: State         // the detector that forgets nothing

    function View(): State
      reads this
    {
      State(history, modified, noProgress, streak, lastError)
    }

    ghost predicate Valid()
      reads this
    {
      cfg.Valid() && full == Final(cfg, false, FRESH, trace) && Window(cfg, View(), full)
    }

    constructor (c: Config)
      ensures Valid() && cfg == Normalized(c) && trace == []
    {
      cfg := Normalized(c);
      history, modified, noProgress, streak, lastError := [], {}, 0, 0, "";
      trace, full := [], FRESH;
    }

    /** The right answer for the whole trace so far; only an admitted call is recorded. */
    method CheckCall(call: Call) returns (alarm: Option<Alarm>)
      requires Valid()
      modifies this`history, this`trace, this`full
      ensures Valid() && trace == old(trace) + [Check(call)]
      ensures RightAnswer(cfg, old(trace), call, alarm)
      ensures alarm == Verdict(cfg, old(full), call)
      ensures if alarm.Some? then full == old(full) && history == old(history)
              else full == old(full).(history := old(full).history + [Opened(call)])
    {
      VerdictIsRight(cfg, trace, call);
      SameVerdict(cfg, View(), full, call);
      CheckKeepsWindow(cfg, View(), full, call);
      FinalAppend(cfg, false, FRESH, trace, Check(call));
      trace := trace + [Check(call)];
      var preview := history + [Opened(call)];
      var repeated := DetectIdentical(preview);
      if repeated {
        return Some(Alarm(IdenticalCall, Keys(Tail(preview, cfg.identical)), cfg.identical));
      }
      var swinging := DetectOscillation(preview);
      if swinging {
        return Some(Alarm(Oscillating, Keys(Tail(preview, cfg.oscillation)), cfg.oscillation));
      }
      if streak >= cfg.fixation && lastError != "" {
        return Some(Alarm(ErrorFixation, Errors(Tail(history, cfg.fixation)), streak));
      }
      if noProgress >= cfg.stall {
        return Some(Alarm(ProgressStall, Keys(Tail(history, cfg.stall)), noProgress));
      }
      history := Tail(preview, Limit(cfg));
      full := AfterCheck(cfg, false, full, call);
      return None;
    }

    method DetectIdentical(h: seq<Record>) returns (found: bool)
      requires cfg.Valid()
      ensures found <==> IdenticalTail(cfg, h)
    {
      var n := cfg.identical;
      if |h| < n {
        return false;
      }
      var tail := h[|h| - n..];
      if tail[0].id == "" || tail[0].hash == "" {
        return false;
      }
      for i := 1 to n
        invariant forall k :: 0 <= k < i ==> SameCall(tail[k], tail[0])
      {
        if !SameCall(tail[i], tail[0]) {
          return false;
        }
      }
      return true;
    }

    method DetectOscillation(h: seq<Record>) returns (found: bool)
      requires cfg.Valid()
      ensures found <==> OscillatingTail(cfg, h)
    {
      var n := cfg.oscillation;
      if n < 4 || |h| < n || n % 2 != 0 {
        return false;
      }
      var tail := h[|h| - n..];
      if tail[0].id == "" || tail[1].id == "" || SameCall(tail[0], tail[1]) {
        return false;
      }
      for i := 0 to n
        invariant forall k :: 0 <= k < i ==> SameCall(tail[k], tail[k % 2])
      {
        var expected := if i % 2 == 1 then tail[1] else tail[0];
        if !SameCall(tail[i], expected) {
          return false;
        }
      }
      return true;
    }

    /** `target`: the capability is a coordination target. */
    method RecordResult(id: string, target: bool, result: Option<ToolResult>)
      requires Valid()
      modifies this
      ensures Valid() && trace == old(trace) + [Result(id, ReportOf(target, result))]
      ensures full == AfterResult(cfg, false, old(full), id, ReportOf(target, result))
      ensures View() == AfterResult(cfg, true, old(View()), id, ReportOf(target, result))
    {
      var r := ReportOf(target, result);
      FinalAppend(cfg, false, FRESH, trace, Result(id, r));
      trace := trace + [Result(id, r)];
      StepKeepsWindow(cfg, View(), full, Result(id, r));
      full := AfterResult(cfg, false, full, id, r);
      NoteResult(id, r);
      CountResult(r);
    }

    /** Completes the open record of the call, or appends one of its own. */
    method NoteResult(id: string, r: Report)
      requires cfg.Valid()
      modifies this`history
      ensures history == Noted(cfg, true, old(history), id, r)
    {
      var n := |history|;
      if n > 0 && history[n - 1].id == id && history[n - 1].error == "" && history[n - 1].path == "" {
        history := history[n - 1 := history[n - 1].(error := r.error, path := r.path)];
      } else {
        history := Tail(history + [Record(id, "", r.error, r.path)], Limit(cfg));
      }
    }

    /** The error streak and the stall counter. */
    method CountResult(r: Report)
      modifies this`streak, this`lastError, this`noProgress, this`modified
      ensures lastError == r.error
      ensures streak == if r.error == "" then 0 else if r.error == old(lastError) then old(streak) + 1 else 1
      ensures modified == if r.path != "" then old(modified) + {r.path} else old(modified)
      ensures noProgress == if (r.path != "" && r.path !in old(modified)) || (r.path == "" && r.coordinated) then 0
                            else old(noProgress) + 1
    {
      if r.error != "" {
        if r.error == lastError {
          streak := streak + 1;
        } else {
          lastError := r.error;
          streak := 1;
        }
      } else {
        lastError := "";
        streak := 0;
      }
      if r.path != "" {
        if r.path in modified {
          noProgress := noProgress + 1;
        } else {
          modified := modified + {r.path};
          noProgress := 0;
        }
      } else if r.coordinated {
        noProgress := 0;
      } else {
        noProgress := noProgress + 1;
      }
    }

    method Clear()
      requires Valid()
      modifies this
      ensures Valid() && trace == old(trace) + [Reset] && View() == FRESH && full == FRESH
    {
      FinalAppend(cfg, false, FRESH, trace, Reset);
      trace := trace + [Reset];
      history, modified, noProgress, streak, lastError := [], {}, 0, 0, "";
      full := FRESH;
    }
  }
}
