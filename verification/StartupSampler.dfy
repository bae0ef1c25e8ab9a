/** The startup sampler's cycle: which processes appeared and disappeared, the
    statistics it keeps for each process, and the markers it reports. Figures are
    real numbers, so rounding is not modelled. */
module StartupSampler {
  import opened Basics

  type Pid = int

  /** A process instance: a process id and its start time. */
  datatype Key = Key(pid: Pid, start: nat)

  /** One successful look at one process, and the clock (in nanoseconds) just after. */
  datatype Look = Look(key: Key, role: int, owner: Pid, age: real, cpu: real, rss: nat, footprint: nat, at: int)

  /** A recorded reading. */
  datatype Reading = Reading(elapsed: real, look: Look, percent: real)

  datatype Stat = Stat(
    role: int, owner: Pid, firstElapsed: real, firstAge: real, initialCpu: real,
    peakRss: nat, peakFootprint: nat, peakPercent: real,
    lastElapsed: real, lastAge: real, finalCpu: real, capturedCpu: real,
    previous: (real, int))

  // ---- the figures, recomputed from the record ----

  function Of(log: seq<Reading>, key: Key): seq<Reading> {
    if log == [] then [] else (if log[0].look.key == key then [log[0]] else []) + Of(log[1..], key)
  }

  function MaxRss(xs: seq<Reading>): nat {
    if xs == [] then 0 else Larger(MaxRss(xs[..|xs| - 1]), xs[|xs| - 1].look.rss)
  }

  function MaxFootprint(xs: seq<Reading>): nat {
    if xs == [] then 0 else Larger(MaxFootprint(xs[..|xs| - 1]), xs[|xs| - 1].look.footprint)
  }

  function MaxPercent(xs: seq<Reading>): real {
    if xs == [] then 0.0 else LargerReal(MaxPercent(xs[..|xs| - 1]), xs[|xs| - 1].percent)
  }

  function Larger(a: nat, b: nat): nat { if a < b then b else a }

  function LargerReal(a: real, b: real): real { if a < b then b else a }

  function Summary(xs: seq<Reading>): Stat
    requires xs != []
  {
    var first, last := xs[0], xs[|xs| - 1];
    Stat(first.look.role, first.look.owner, first.elapsed, first.look.age, first.look.cpu,
         MaxRss(xs), MaxFootprint(xs), MaxPercent(xs),
         last.elapsed, last.look.age, last.look.cpu, last.look.cpu - first.look.cpu,
         (last.look.cpu, last.look.at))
  }

  type Stats = map<Key, Stat>

  /** Every process's figures are those of its recorded readings. */
  ghost predicate Agrees(stats: Stats, log: seq<Reading>) {
    forall key :: if key in stats then Of(log, key) != [] && stats[key] == Summary(Of(log, key)) else Of(log, key) == []
  }

  /** The recomputed peaks are maxima: not below any reading, and reached. */
  lemma {:induction false} PeaksAreMaxima(xs: seq<Reading>)
    requires xs != []
    ensures forall x :: x in xs ==>
      x.look.rss <= MaxRss(xs) && x.look.footprint <= MaxFootprint(xs) && x.percent <= MaxPercent(xs)
    ensures exists x :: x in xs && x.look.rss == MaxRss(xs)
    ensures exists x :: x in xs && x.look.footprint == MaxFootprint(xs)
    ensures (exists x :: x in xs && x.percent == MaxPercent(xs))
         || (MaxPercent(xs) == 0.0 && forall x :: x in xs ==> x.percent < 0.0)
  {
    var init, last := xs[..|xs| - 1], xs[|xs| - 1];
    assert xs == init + [last];
    if init != [] { PeaksAreMaxima(init); }
    assert last in xs;
  }

  lemma {:induction false} OfAppend(log: seq<Reading>, r: Reading, key: Key)
    ensures Of(log + [r], key) == Of(log, key) + (if r.look.key == key then [r] else [])
  {
    if log == [] {
      assert log + [r] == [r];
    } else {
      assert (log + [r])[1..] == log[1..] + [r];
      OfAppend(log[1..], r, key);
    }
  }

  /** CPU use since the previous look, in percent; none for a first look. */
  function Percent(previous: Option<(real, int)>, look: Look): real
    requires previous.Some? ==> previous.value.1 != look.at
  {
    if previous.None? then 0.0
    else LargerReal(0.0, 100.0 * (look.cpu - previous.value.0) / ((look.at - previous.value.1) as real / 1000000.0))
  }

  function Previous(stats: Stats, key: Key): Option<(real, int)> {
    if key in stats then Some(stats[key].previous) else None
  }

  /** The division that would fail: the clock did not advance between two looks at
      the same process. */
  predicate DividesByZero(stats: Stats, look: Look) { look.key in stats && stats[look.key].previous.1 == look.at }

  /** What one look does to the figures of its process. */
  function Updated(stats: Stats, elapsed: real, look: Look): Stat
    requires !DividesByZero(stats, look)
  {
    var percent := Percent(Previous(stats, look.key), look);
    var before := if look.key in stats then stats[look.key]
      else Stat(look.role, look.owner, elapsed, look.age, look.cpu, 0, 0, 0.0,
                elapsed, look.age, look.cpu, 0.0, (0.0, 0));
    before.(peakRss := Larger(before.peakRss, look.rss), peakFootprint := Larger(before.peakFootprint, look.footprint),
         peakPercent := LargerReal(before.peakPercent, percent), lastElapsed := elapsed, lastAge := look.age,
         finalCpu := look.cpu, capturedCpu := look.cpu - before.initialCpu, previous := (look.cpu, look.at))
  }

  function Recorded(stats: Stats, elapsed: real, look: Look): Reading
    requires !DividesByZero(stats, look)
  {
    Reading(elapsed, look, Percent(Previous(stats, look.key), look))
  }

  lemma LastOfAppend(xs: seq<Reading>, r: Reading)
    ensures var ys := xs + [r]; ys[..|ys| - 1] == xs && ys[|ys| - 1] == r
  {
  }

  lemma MaximaAppend(xs: seq<Reading>, r: Reading)
    ensures MaxRss(xs + [r]) == Larger(MaxRss(xs), r.look.rss)
    ensures MaxFootprint(xs + [r]) == Larger(MaxFootprint(xs), r.look.footprint)
    ensures MaxPercent(xs + [r]) == LargerReal(MaxPercent(xs), r.percent)
  {
    LastOfAppend(xs, r);
  }

  /** The figures of a longer record, from those of the shorter one. */
  lemma SummaryAppend(xs: seq<Reading>, r: Reading)
    requires xs != []
    ensures var s := Summary(xs);
      Summary(xs + [r]) ==
        s.(peakRss := Larger(s.peakRss, r.look.rss), peakFootprint := Larger(s.peakFootprint, r.look.footprint),
           peakPercent := LargerReal(s.peakPercent, r.percent), lastElapsed := r.elapsed, lastAge := r.look.age,
           finalCpu := r.look.cpu, capturedCpu := r.look.cpu - s.initialCpu, previous := (r.look.cpu, r.look.at))
  {
    LastOfAppend(xs, r);
    MaximaAppend(xs, r);
    assert (xs + [r])[0] == xs[0];
    hide MaxRss, MaxFootprint, MaxPercent, Larger, LargerReal;
  }

  /** The figures of a single reading. */
  lemma SummaryOfOne(r: Reading)
    ensures Summary([r]) == Stat(
      r.look.role, r.look.owner, r.elapsed, r.look.age, r.look.cpu, r.look.rss, r.look.footprint,
      LargerReal(0.0, r.percent), r.elapsed, r.look.age, r.look.cpu, 0.0, (r.look.cpu, r.look.at))
  {
    MaximaAppend([], r);
    assert [] + [r] == [r];
  }

  lemma UpdatedIsSummary(stats: Stats, xs: seq<Reading>, elapsed: real, look: Look)
    requires !DividesByZero(stats, look)
    requires if look.key in stats then xs != [] && stats[look.key] == Summary(xs) else xs == []
    ensures Updated(stats, elapsed, look) == Summary(xs + [Recorded(stats, elapsed, look)])
  {
    var r := Recorded(stats, elapsed, look);
    hide Summary, Percent;
    if look.key in stats {
      SummaryAppend(xs, r);
    } else {
      SummaryOfOne(r);
      assert xs + [r] == [r];
    }
  }

  /** Updating the figures online agrees with recomputing them from the longer
      record. */
  lemma UpdateAgrees(stats: Stats, log: seq<Reading>, elapsed: real, look: Look)
    requires Agrees(stats, log) && !DividesByZero(stats, look)
    ensures Agrees(stats[look.key := Updated(stats, elapsed, look)], log + [Recorded(stats, elapsed, look)])
  {
    var r := Recorded(stats, elapsed, look);
    UpdatedIsSummary(stats, Of(log, look.key), elapsed, look);
    hide Summary, Percent, Updated;
    forall key ensures Of(log + [r], key) == (if look.key == key then Of(log, key) + [r] else Of(log, key)) {
      OfAppend(log, r, key);
    }
  }

  // ---- one cycle's looks ----

  function LooksOf(log: seq<Reading>): seq<Look> { seq(|log|, i requires 0 <= i < |log| => log[i].look) }

  /** The successful looks, in order. */
  function Taken(looks: seq<Option<Look>>): seq<Look> {
    if looks == [] then [] else (if looks[0].Some? then [looks[0].value] else []) + Taken(looks[1..])
  }

  /** The last look at a process. */
  function LastLook(xs: seq<Look>, key: Key): Option<Look> {
    if xs == [] then None
    else if xs[|xs| - 1].key == key then Some(xs[|xs| - 1]) else LastLook(xs[..|xs| - 1], key)
  }

  /** What sampling makes of the figures and adds to the record; nothing if a
      division by zero ends the program. */
  function Sampled(stats: Stats, elapsed: real, looks: seq<Option<Look>>): Option<(Stats, seq<Reading>)>
    decreases |looks|
  {
    if looks == [] then Some((stats, []))
    else if looks[0].None? then Sampled(stats, elapsed, looks[1..])
    else if DividesByZero(stats, looks[0].value) then None
    else
      var row := Recorded(stats, elapsed, looks[0].value);
      var rest := Sampled(stats[row.look.key := Updated(stats, elapsed, row.look)], elapsed, looks[1..]);
      if rest.None? then None else Some((rest.value.0, [row] + rest.value.1))
  }

  /** The recorded percentage is the CPU time used since the last recorded look at
      the same process, per time passed; a decrease counts as none. */
  ghost predicate Rated(before: Option<Look>, r: Reading) {
    if before.None? then r.percent == 0.0 else
    var gain, span := r.look.cpu - before.value.cpu, (r.look.at - before.value.at) as real / 1000000.0;
    && span != 0.0 && r.percent >= 0.0
    && (span > 0.0 ==> if gain > 0.0 then r.percent * span == 100.0 * gain else r.percent == 0.0)
  }

  ghost predicate AllRated(log: seq<Reading>) {
    forall i :: 0 <= i < |log| ==> Rated(LastLook(LooksOf(log[..i]), log[i].look.key), log[i])
  }

  lemma Ratio(gain: real, span: real)
    requires span > 0.0
    ensures gain > 0.0 ==> 100.0 * gain / span > 0.0
    ensures gain <= 0.0 ==> 100.0 * gain / span <= 0.0
    ensures 100.0 * gain / span * span == 100.0 * gain
  {
    var q := 100.0 * gain / span;
    assert q * span == 100.0 * gain;
    if q <= 0.0 { assert q * span <= 0.0; } else { assert q * span > 0.0; }
  }

  lemma PercentIsRated(before: Option<Look>, elapsed: real, look: Look)
    requires before.Some? ==> before.value.at != look.at
    ensures var previous := if before.None? then None else Some((before.value.cpu, before.value.at));
      Rated(before, Reading(elapsed, look, Percent(previous, look)))
  {
    if before.Some? {
      var gain, span := look.cpu - before.value.cpu, (look.at - before.value.at) as real / 1000000.0;
      if span > 0.0 { Ratio(gain, span); }
    }
  }

  /** The record names the last look at every process. */
  lemma {:induction false} LastLookInRecord(log: seq<Reading>, key: Key)
    ensures LastLook(LooksOf(log), key)
         == (if Of(log, key) == [] then None else Some(Of(log, key)[|Of(log, key)| - 1].look))
    decreases |log|
  {
    if log != [] {
      var n := |log| - 1;
      LastLookInRecord(log[..n], key);
      OfAppend(log[..n], log[n], key);
      assert log == log[..n] + [log[n]];
      assert LooksOf(log)[..n] == LooksOf(log[..n]);
    }
  }

  lemma PreviousIsLastLook(stats: Stats, log: seq<Reading>, key: Key)
    requires Agrees(stats, log)
    ensures var last := LastLook(LooksOf(log), key);
      Previous(stats, key) == (if last.None? then None else Some((last.value.cpu, last.value.at)))
  {
    LastLookInRecord(log, key);
  }

  lemma RatedOneMore(stats: Stats, log: seq<Reading>, elapsed: real, look: Look)
    requires Agrees(stats, log) && AllRated(log) && !DividesByZero(stats, look)
    ensures AllRated(log + [Recorded(stats, elapsed, look)])
  {
    var r := Recorded(stats, elapsed, look);
    PreviousIsLastLook(stats, log, look.key);
    PercentIsRated(LastLook(LooksOf(log), look.key), elapsed, look);
    hide Percent, Rated, LastLook, LooksOf, Agrees;
    var more := log + [r];
    forall i | 0 <= i < |more| ensures Rated(LastLook(LooksOf(more[..i]), more[i].look.key), more[i]) {
      assert more[..i] == log[..i];
      if i == |log| { assert log[..i] == log; }
    }
  }

  lemma NoLooks()
    ensures LooksOf([]) == []
  {
  }

  lemma LooksOfCons(row: Reading, rest: seq<Reading>)
    ensures LooksOf([row] + rest) == [row.look] + LooksOf(rest)
  {
  }

  lemma LooksOfSnoc(log: seq<Reading>, row: Reading, more: seq<Look>)
    ensures LooksOf(log + [row]) + more == LooksOf(log) + ([row.look] + more)
  {
  }

  /** The record grows by exactly the successful looks, in order; the figures
      agree with it, and every percentage is the rate it should be. */
  lemma {:induction false} SampledAgrees(stats: Stats, log: seq<Reading>, elapsed: real, looks: seq<Option<Look>>)
    requires Agrees(stats, log) && AllRated(log) && Sampled(stats, elapsed, looks).Some?
    ensures var (after, rows) := Sampled(stats, elapsed, looks).value;
      && Agrees(after, log + rows) && AllRated(log + rows)
      && LooksOf(rows) == Taken(looks) && forall r :: r in rows ==> r.elapsed == elapsed
    decreases |looks|
  {
    hide Agrees, AllRated, Updated, Percent, LooksOf, DividesByZero;
    NoLooks();
    if looks == [] {
      assert log + [] == log;
    } else if looks[0].None? {
      SampledAgrees(stats, log, elapsed, looks[1..]);
      assert [] + Taken(looks[1..]) == Taken(looks[1..]);
    } else {
      var look := looks[0].value;
      var row := Recorded(stats, elapsed, look);
      var next := stats[look.key := Updated(stats, elapsed, look)];
      UpdateAgrees(stats, log, elapsed, look);
      RatedOneMore(stats, log, elapsed, look);
      SampledAgrees(next, log + [row], elapsed, looks[1..]);
      var rest := Sampled(next, elapsed, looks[1..]).value.1;
      assert log + ([row] + rest) == log + [row] + rest;
      LooksOfCons(row, rest);
    }
  }

  /** From the n-th on, some look comes at the same clock reading as the last one
      at its process. */
  ghost predicate Clash(xs: seq<Look>, n: nat) {
    exists i :: n <= i < |xs| && ClashAt(xs, i)
  }

  ghost predicate ClashAt(xs: seq<Look>, i: nat)
    requires i < |xs|
  {
    var last := LastLook(xs[..i], xs[i].key);
    last.Some? && last.value.at == xs[i].at
  }

  lemma ClashUnfolds(xs: seq<Look>, n: nat)
    ensures Clash(xs, n) <==> n < |xs| && (ClashAt(xs, n) || Clash(xs, n + 1))
  {
    if n < |xs| && Clash(xs, n) && !ClashAt(xs, n) {
      var i :| n <= i < |xs| && ClashAt(xs, i);
      assert n + 1 <= i;
    }
  }

  /** The next look clashes exactly if its rate would be a division by zero. */
  lemma ClashIsDivision(stats: Stats, log: seq<Reading>, look: Look, more: seq<Look>)
    requires Agrees(stats, log)
    ensures ClashAt(LooksOf(log) + ([look] + more), |log|) <==> DividesByZero(stats, look)
  {
    PreviousIsLastLook(stats, log, look.key);
    hide LastLook, Agrees;
    var xs := LooksOf(log) + ([look] + more);
    assert xs[..|log|] == LooksOf(log) && xs[|log|] == look;
  }

  /** Sampling ends the program exactly on such a clash. */
  lemma {:induction false} SampledFailsOnClash(stats: Stats, log: seq<Reading>, elapsed: real, looks: seq<Option<Look>>)
    requires Agrees(stats, log)
    ensures Sampled(stats, elapsed, looks).None? <==> Clash(LooksOf(log) + Taken(looks), |log|)
    decreases |looks|
  {
    hide Agrees, Updated, Percent, Recorded, DividesByZero, Clash, ClashAt;
    ClashUnfolds(LooksOf(log) + Taken(looks), |log|);
    if looks != [] {
      var more := Taken(looks[1..]);
      if looks[0].None? {
        SampledFailsOnClash(stats, log, elapsed, looks[1..]);
        assert [] + more == more;
      } else {
        var look := looks[0].value;
        ClashIsDivision(stats, log, look, more);
        if !DividesByZero(stats, look) {
          var row := Recorded(stats, elapsed, look);
          RecordedLook(stats, elapsed, look);
          UpdateAgrees(stats, log, elapsed, look);
          SampledFailsOnClash(stats[look.key := Updated(stats, elapsed, look)], log + [row], elapsed, looks[1..]);
          LooksOfSnoc(log, row, more);
        }
      }
    }
  }

  lemma RecordedLook(stats: Stats, elapsed: real, look: Look)
    requires !DividesByZero(stats, look)
    ensures Recorded(stats, elapsed, look).look == look
  {
  }

  // ---- events ----

  datatype Event =
    | Appeared(pid: Pid)
    | Disappeared(pid: Pid)
    | FirstHealthy(pid: Pid)
    | UiReady(at: int)

  /** The appearances (true) and disappearances of one process, in order. */
  function Trail(events: seq<Event>, pid: Pid): seq<bool> {
    if events == [] then [] else
    var last := events[|events| - 1];
    Trail(events[..|events| - 1], pid)
      + if last == Appeared(pid) then [true] else if last == Disappeared(pid) then [false] else []
  }

  function Count(events: seq<Event>, e: Event): nat {
    if events == [] then 0 else
    Count(events[..|events| - 1], e) + if events[|events| - 1] == e then 1 else 0
  }

  /** Appearances and disappearances alternate, an appearance first. */
  predicate Alternates(trail: seq<bool>) { forall i :: 0 <= i < |trail| ==> (trail[i] <==> i % 2 == 0) }

  /** A process is seen exactly if its last event was an appearance; each process
      and each marker is reported at most once. */
  ghost predicate EventsOk(events: seq<Event>, seen: set<Pid>, healthSeen: set<Pid>, markerSeen: set<int>) {
    && (forall pid :: TrailOk(Trail(events, pid), pid in seen))
    && (forall pid :: Count(events, FirstHealthy(pid)) == if pid in healthSeen then 1 else 0)
    && (forall at :: Count(events, UiReady(at)) == if at in markerSeen then 1 else 0)
  }

  predicate TrailOk(trail: seq<bool>, seen: bool) { Alternates(trail) && (seen <==> |trail| % 2 == 1) }

  lemma AppendEvent(events: seq<Event>, e: Event, pid: Pid, x: Event)
    ensures Trail(events + [e], pid)
         == Trail(events, pid) + (if e == Appeared(pid) then [true] else if e == Disappeared(pid) then [false] else [])
    ensures Count(events + [e], x) == Count(events, x) + (if e == x then 1 else 0)
  {
    assert (events + [e])[..|events|] == events;
  }

  /** The event may be reported now, and what has then been reported. */
  predicate MayReport(e: Event, seen: set<Pid>, healthSeen: set<Pid>, markerSeen: set<int>) {
    match e
    case Appeared(pid) => pid !in seen
    case Disappeared(pid) => pid in seen
    case FirstHealthy(pid) => pid !in healthSeen
    case UiReady(at) => at !in markerSeen
  }

  function SeenAfter(seen: set<Pid>, e: Event): set<Pid> {
    if e.Appeared? then seen + {e.pid} else if e.Disappeared? then seen - {e.pid} else seen
  }

  lemma TrailAfter(events: seq<Event>, seen: set<Pid>, e: Event, pid: Pid)
    requires TrailOk(Trail(events, pid), pid in seen)
    requires e.Appeared? ==> e.pid !in seen
    requires e.Disappeared? ==> e.pid in seen
    ensures TrailOk(Trail(events + [e], pid), pid in SeenAfter(seen, e))
  {
    AppendEvent(events, e, pid, e);
    hide Trail;
  }

  lemma ReportKeepsEventsOk(events: seq<Event>, seen: set<Pid>, healthSeen: set<Pid>, markerSeen: set<int>, e: Event)
    requires EventsOk(events, seen, healthSeen, markerSeen) && MayReport(e, seen, healthSeen, markerSeen)
    ensures EventsOk(events + [e], SeenAfter(seen, e),
                     if e.FirstHealthy? then healthSeen + {e.pid} else healthSeen,
                     if e.UiReady? then markerSeen + {e.at} else markerSeen)
  {
    hide Trail, Count, TrailOk;
    forall pid ensures TrailOk(Trail(events + [e], pid), pid in SeenAfter(seen, e)) {
      TrailAfter(events, seen, e, pid);
    }
    forall x ensures Count(events + [e], x) == Count(events, x) + (if e == x then 1 else 0) {
      AppendEvent(events, e, 0, x);
    }
  }

  /** A line of the marker file. */
  datatype MarkerLine = Unreadable | NotAnObject | TooDeep | Marker(event: int, at: Option<int>)

  /** The UI-ready times the file reports, up to the first line that stops the
      reading. */
  function Reported(lines: seq<MarkerLine>, started: int): set<int> {
    if lines == [] || !lines[0].Marker? || Fatal(lines[0], started) then {}
    else (if Counts(lines[0], started) then {lines[0].at.value} else {}) + Reported(lines[1..], started)
  }

  /** Line i is a UI-ready marker with this time, not before the start, and no line up
      to it stops the reading. */
  ghost predicate ReportedAt(lines: seq<MarkerLine>, started: int, at: int, i: int) {
    && 0 <= i < |lines| && lines[i] == Marker(5, Some(at)) && at >= started
    && forall j :: 0 <= j <= i ==> GoesOn(lines[j], started)
  }

  predicate GoesOn(line: MarkerLine, started: int) { line.Marker? && !Fatal(line, started) }

  lemma ReportedAtCons(line: MarkerLine, rest: seq<MarkerLine>, started: int, at: int, i: nat)
    requires GoesOn(line, started)
    ensures ReportedAt([line] + rest, started, at, i + 1) <==> ReportedAt(rest, started, at, i)
  {
    var lines := [line] + rest;
    forall j | 0 < j < |lines| ensures lines[j] == rest[j - 1] {}
    forall j | 0 <= j < |rest| ensures rest[j] == lines[j + 1] {}
    hide GoesOn;
  }

  /** The times reported are exactly those. */
  lemma {:induction false} ReportedExactly(lines: seq<MarkerLine>, started: int, at: int)
    ensures at in Reported(lines, started) <==> exists i :: ReportedAt(lines, started, at, i)
  {
    if lines != [] && GoesOn(lines[0], started) {
      var line, rest := lines[0], lines[1..];
      assert lines == [line] + rest;
      ReportedExactly(rest, started, at);
      assert ReportedAt(lines, started, at, 0) <==> line == Marker(5, Some(at)) && at >= started;
      if i :| ReportedAt(rest, started, at, i) { ReportedAtCons(line, rest, started, at, i); }
      if i :| ReportedAt(lines, started, at, i) && i > 0 { ReportedAtCons(line, rest, started, at, i - 1); }
      hide ReportedAt, Fatal;
    } else if lines != [] {
      forall i ensures !ReportedAt(lines, started, at, i) {}
    }
  }

  function PowerOfTwo(n: nat): nat { if n == 0 then 1 else 2 * PowerOfTwo(n - 1) }

  /** The least whole number that is too large for a double. */
  function FloatLimit(): int { PowerOfTwo(1024) - PowerOfTwo(970) }

  /** The time passed cannot be converted to a floating-point number. */
  predicate Overflows(at: int, started: int) { at - started >= FloatLimit() }

  /** The line ends the program: it is JSON but no object, it is nested too deeply to
      decode, or its time is too large. */
  predicate Fatal(line: MarkerLine, started: int) {
    line.NotAnObject? || line.TooDeep? || (line.Marker? && Counts(line, started) && Overflows(line.at.value, started))
  }

  /** Such a line comes before any unreadable one. */
  ghost predicate EndsProgram(lines: seq<MarkerLine>, started: int) {
    exists i :: 0 <= i < |lines| && Fatal(lines[i], started)
      && forall j :: 0 <= j < i ==> lines[j].Marker? && !Fatal(lines[j], started)
  }

  predicate Counts(line: MarkerLine, started: int)
    requires line.Marker?
  {
    line.event == 5 && line.at.Some? && line.at.value >= started
  }

  lemma EmptyOrInhabited(pids: set<Pid>)
    ensures pids == {} || exists pid :: pid in pids
  {
    if forall pid :: pid !in pids { assert pids <= {}; }
  }

  class Sampler {
    const started: int
    var stats: Stats
    var seenMains: set<Pid>
    var healthSeen: set<Pid>
    var markerSeen: set<int>
    var events: seq<Event>
    var readings: seq<Reading>   // the processes of all recorded samples, in order

    ghost predicate Valid()
      reads this
    {
      && Agrees(stats, readings) && AllRated(readings) && EventsOk(events, seenMains, healthSeen, markerSeen)
      && forall at :: at in markerSeen ==> !Overflows(at, started)
    }

    constructor (started: int)
      ensures Valid() && this.started == started && events == [] && readings == []
    {
      this.started := started;
      stats, seenMains, healthSeen, markerSeen, events, readings := map[], {}, {}, {}, [], [];
    }

    /** Reports which main processes came and went since the last cycle. */
    method CompareMains(mains: seq<Pid>)
      requires Valid()
      modifies `events, `seenMains
      ensures Valid() && seenMains == set p | p in mains
      ensures old(events) <= events
      ensures |events| == |old(events)| + |seenMains - old(seenMains)| + |old(seenMains) - seenMains|
    {
      var now := set p | p in mains;
      var arrived, gone := now - seenMains, seenMains - now;
      hide EventsOk, Agrees, AllRated;
      ghost var seen := ReportAll(arrived, true, seenMains);
      assert seenMains !! arrived && gone <= seen;
      seen := ReportAll(gone, false, seen);
      assert seen == now;
      seenMains := now;
    }

    /** Reports the processes of a set, in some order. */
    method ReportAll(pids: set<Pid>, arrived: bool, ghost seen: set<Pid>) returns (ghost seenNow: set<Pid>)
      requires EventsOk(events, seen, healthSeen, markerSeen)
      requires if arrived then pids !! seen else pids <= seen
      modifies `events
      ensures EventsOk(events, seenNow, healthSeen, markerSeen)
      ensures seenNow == if arrived then seen + pids else seen - pids
      ensures old(events) <= events && |events| == |old(events)| + |pids|
    {
      hide EventsOk;
      var left := pids;
      seenNow := seen;
      while left != {}
        invariant old(events) <= events && |events| + |left| == |old(events)| + |pids|
        invariant EventsOk(events, seenNow, healthSeen, markerSeen)
        invariant if arrived then left !! seenNow && seenNow + left == seen + pids
                  else left <= seenNow && seenNow - left == seen - pids
        decreases |left|
      {
        EmptyOrInhabited(left);
        var pid :| pid in left;
        seenNow := ReportOne(pid, arrived, seenNow);
        left := left - {pid};
      }
    }

    method ReportOne(pid: Pid, arrived: bool, ghost seen: set<Pid>) returns (ghost seenNow: set<Pid>)
      requires EventsOk(events, seen, healthSeen, markerSeen)
      requires arrived <==> pid !in seen
      modifies `events
      ensures events == old(events) + [if arrived then Appeared(pid) else Disappeared(pid)]
      ensures EventsOk(events, seenNow, healthSeen, markerSeen)
      ensures seenNow == if arrived then seen + {pid} else seen - {pid}
    {
      hide EventsOk;
      var e := if arrived then Appeared(pid) else Disappeared(pid);
      ReportKeepsEventsOk(events, seen, healthSeen, markerSeen, e);
      events := events + [e];
      seenNow := SeenAfter(seen, e);
    }

    method NoteHealth(health: Option<Pid>)
      requires Valid()
      modifies `events, `healthSeen
      ensures Valid()
      ensures healthSeen == old(healthSeen) + (if health.Some? then {health.value} else {})
      ensures old(events) <= events
    {
      hide EventsOk, Agrees, AllRated;
      if health.Some? && health.value !in healthSeen {
        ReportKeepsEventsOk(events, seenMains, healthSeen, markerSeen, FirstHealthy(health.value));
        healthSeen := healthSeen + {health.value};
        events := events + [FirstHealthy(health.value)];
      }
    }

    /** The looks of one cycle. A division by zero ends the program. */
    method Sample(elapsed: real, looks: seq<Option<Look>>) returns (crashed: bool)
      requires Valid()
      modifies `stats, `readings
      ensures crashed <==> Clash(LooksOf(old(readings)) + Taken(looks), |old(readings)|)
      ensures old(readings) <= readings
      ensures !crashed ==> Valid() && Some((stats, readings[|old(readings)|..])) == Sampled(old(stats), elapsed, looks)
      ensures !crashed ==> LooksOf(readings[|old(readings)|..]) == Taken(looks)
    {
      SampledFailsOnClash(stats, readings, elapsed, looks);
      if Sampled(stats, elapsed, looks).Some? { SampledAgrees(stats, readings, elapsed, looks); }
      ghost var all := Sampled(stats, elapsed, looks);
      var rows: seq<Reading> := [];
      hide Agrees, AllRated, EventsOk, Clash, LooksOf, Taken, Updated, Percent;
      assert looks[0..] == looks;
      assert all.Some? ==> [] + all.value.1 == all.value.1;
      for i := 0 to |looks|
        invariant readings == old(readings)
        invariant var rest := Sampled(stats, elapsed, looks[i..]);
          all == if rest.None? then None else Some((rest.value.0, rows + rest.value.1))
      {
        assert looks[i..][1..] == looks[i + 1..];
        if looks[i].None? { continue; }
        var look := looks[i].value;
        if DividesByZero(stats, look) { return true; }
        var row := Recorded(stats, elapsed, look);
        stats := stats[look.key := Updated(stats, elapsed, look)];
        ghost var rest := Sampled(stats, elapsed, looks[i + 1..]);
        assert rest.Some? ==> rows + ([row] + rest.value.1) == rows + [row] + rest.value.1;
        rows := rows + [row];
      }
      assert rows + [] == rows;
      readings := readings + rows;
      crashed := false;
      assert readings[|old(readings)|..] == rows;
    }

    /** Reads the whole marker file again and reports the times not yet reported.
        An unreadable line ends the reading; one that is not an object or nested
        too deeply, or a time too large to convert, ends the program. */
    method ReadMarkers(lines: seq<MarkerLine>) returns (crashed: bool)
      requires Valid()
      modifies `events, `markerSeen
      ensures Valid()
      ensures crashed <==> EndsProgram(lines, started)
      ensures markerSeen == old(markerSeen) + Reported(lines, started)
      ensures old(events) <= events
    {
      hide Agrees, AllRated, EventsOk, FloatLimit;
      for i := 0 to |lines|
        invariant Valid() && old(events) <= events
        invariant forall j :: 0 <= j < i ==> lines[j].Marker? && !Fatal(lines[j], started)
        invariant markerSeen + Reported(lines[i..], started) == old(markerSeen) + Reported(lines, started)
      {
        if lines[i].Unreadable? { return false; }
        if lines[i].NotAnObject? || lines[i].TooDeep? { return true; }
        assert lines[i..][1..] == lines[i + 1..];
        if Counts(lines[i], started) && lines[i].at.value !in markerSeen {
          if Overflows(lines[i].at.value, started) { return true; }
          ReportKeepsEventsOk(events, seenMains, healthSeen, markerSeen, UiReady(lines[i].at.value));
          markerSeen := markerSeen + {lines[i].at.value};
          events := events + [UiReady(lines[i].at.value)];
        }
      }
      crashed := false;
    }

    /** One sampling cycle. After every cycle that does not end the program the
        figures agree with the record and the events are in order. */
    method Cycle(elapsed: real, mains: seq<Pid>, health: Option<Pid>, looks: seq<Option<Look>>, lines: seq<MarkerLine>)
      returns (crashed: bool)
      requires Valid()
      modifies this
      ensures crashed <==> Clash(LooksOf(old(readings)) + Taken(looks), |old(readings)|) || EndsProgram(lines, started)
      ensures old(readings) <= readings && old(events) <= events
      ensures !crashed ==> LooksOf(readings[|old(readings)|..]) == Taken(looks)
      ensures !crashed ==> Valid() && seenMains == set p | p in mains
      ensures !crashed ==> markerSeen == old(markerSeen) + Reported(lines, started)
    {
      hide Clash, EndsProgram, Agrees, AllRated, EventsOk, Sampled;
      CompareMains(mains);
      NoteHealth(health);
      crashed := Sample(elapsed, looks);
      if !crashed { crashed := ReadMarkers(lines); }
    }
  }
}
