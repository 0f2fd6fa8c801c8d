/** The dashboard page: the class and type filters, the aggregation of
    check-in records into chart points, the load state and the text export. */
module Dashboard {
  import opened Basics
  import opened Text
  import opened Seqs
  import opened StableSort
  import opened Emotions
  import opened ClassList
  import opened Calendar
  import opened Periods
  import opened Grouping

  /** One record of `/api/codigo/dashboard`. */
  datatype Event = Event(data: string, emocao: int, turma: string, tipo: string)

  /** The page state `loadData` reads. */
  datatype Filters = Filters(timeRange: TimeRange, selectedTurma: string, selectedTipo: string, turmas: seq<Turma>)

  /** `loadTurmas`: the valid classes of a successful response; on failure the list stays as it was. */
  function LoadClassList(previous: seq<Turma>, response: Option<seq<Turma>>): (r: seq<Turma>)
    ensures response.None? ==> r == previous
    ensures response.Some? ==> forall t :: t in r <==> t in response.value && IsValidClass(t)
    ensures response.Some? ==> IsSubsequence(r, response.value)
    ensures response.Some? ==> |r| == Count(response.value, IsValidClass)
  {
    match response
    case None => previous
    case Some(api) => KeepValid(api)
  }

  // ---------------------------------------------------------------------
  // Filters
  // ---------------------------------------------------------------------

  /** `i` is the first class whose printed id is `selected`. */
  predicate IsFirstWithId(classes: seq<Turma>, selected: string, i: int)
  {
    && 0 <= i < |classes|
    && IntToString(classes[i].id) == selected
    && forall j :: 0 <= j < i ==> IntToString(classes[j].id) != selected
  }

  /** The name of the first class whose id, written in decimal, is
      `selected`; nothing when no class has that id. */
  function FindName(classes: seq<Turma>, selected: string): (r: Option<string>)
    ensures r.None? <==> forall i :: 0 <= i < |classes| ==> IntToString(classes[i].id) != selected
    ensures r.Some? ==> exists i :: IsFirstWithId(classes, selected, i) && r.value == classes[i].nome
  {
    if |classes| == 0 then None
    else if IntToString(classes[0].id) == selected then
      assert IsFirstWithId(classes, selected, 0);
      Some(classes[0].nome)
    else
      var r := FindName(classes[1..], selected);
      assert r.Some? ==> exists i :: IsFirstWithId(classes, selected, i) && r.value == classes[i].nome by {
        if r.Some? {
          var i :| IsFirstWithId(classes[1..], selected, i) && r.value == classes[1..][i].nome;
          FirstWithIdShift(classes, selected, i);
        }
      }
      assert r.None? ==> forall i :: 0 <= i < |classes| ==> IntToString(classes[i].id) != selected by {
        if r.None? {
          forall i | 1 <= i < |classes| ensures IntToString(classes[i].id) != selected {
            assert classes[i] == classes[1..][i - 1];
          }
        }
      }
      r
  }

  /** Skipping a first class with another id moves the first match one place on. */
  lemma FirstWithIdShift(classes: seq<Turma>, selected: string, i: int)
    requires |classes| > 0 && IntToString(classes[0].id) != selected
    requires IsFirstWithId(classes[1..], selected, i)
    ensures IsFirstWithId(classes, selected, i + 1)
  {
    forall j | 1 <= j <= i ensures IntToString(classes[j].id) != selected {
      assert classes[j] == classes[1..][j - 1];
    }
  }

  /** `selectedTurmaNome`: null for "all", otherwise the name of the selected class. */
  function ClassNameOf(f: Filters): (r: Option<string>)
    ensures r.None? <==> f.selectedTurma == "all" || forall i :: 0 <= i < |f.turmas| ==> IntToString(f.turmas[i].id) != f.selectedTurma
    ensures r.Some? ==> exists i :: IsFirstWithId(f.turmas, f.selectedTurma, i) && r.value == f.turmas[i].nome
  {
    if f.selectedTurma == "all" then None else FindName(f.turmas, f.selectedTurma)
  }

  /** The `filteredRaw` test. A missing or empty class name is falsy and
      imposes no restriction; the type restricts unless it is "all". */
  predicate Admits(e: Event, className: Option<string>, tipo: string)
  {
    && (className.None? || className.value == "" || e.turma == className.value)
    && (tipo == "all" || e.tipo == tipo)
  }

  /** The record test of the current filters. */
  function Passes(f: Filters): Event -> bool
  {
    var name := ClassNameOf(f);
    (e: Event) => Admits(e, name, f.selectedTipo)
  }

  /** `filteredRaw`: the records that pass the filters, in answer order. */
  function Kept(events: seq<Event>, f: Filters): (r: seq<Event>)
    ensures IsSubsequence(r, events)
    ensures |r| == Count(events, Passes(f))
  {
    FilterIsSubsequence(events, Passes(f));
    FilterLength(events, Passes(f));
    Filter(events, Passes(f))
  }

  /** Only the type test is left. */
  function TypeOnly(tipo: string): Event -> bool
  {
    (e: Event) => tipo == "all" || e.tipo == tipo
  }

  /** A selection that names no listed class ("all", "none", an unknown id)
      leaves only the type filter. */
  lemma NoClassRestriction(events: seq<Event>, f: Filters)
    requires forall i :: 0 <= i < |f.turmas| ==> IntToString(f.turmas[i].id) != f.selectedTurma
    ensures Kept(events, f) == Filter(events, TypeOnly(f.selectedTipo))
  {
    FilterCongruent(events, Passes(f), TypeOnly(f.selectedTipo));
  }

  /** The value "none" never matches a printed id. */
  lemma NoneSelectsNoClass(f: Filters)
    requires f.selectedTurma == "none"
    ensures ClassNameOf(f).None?
  {
    forall i | 0 <= i < |f.turmas| ensures IntToString(f.turmas[i].id) != f.selectedTurma {
      var s := IntToString(f.turmas[i].id);
      assert IsDigit(s[0]) || s[0] == '-';
    }
  }

  /** A record is kept exactly when it passes both active filters. */
  lemma KeptMembers(events: seq<Event>, f: Filters, e: Event)
    ensures e in Kept(events, f) <==>
              && e in events
              && (ClassNameOf(f).None? || ClassNameOf(f).value == "" || e.turma == ClassNameOf(f).value)
              && (f.selectedTipo == "all" || e.tipo == f.selectedTipo)
  {
    FilterMembers(events, Passes(f), e);
  }

  // ---------------------------------------------------------------------
  // Labelling the kept records
  // ---------------------------------------------------------------------

  /** `timeLabel` of a record, or the error the destructuring throws. */
  function EventLabel(e: Event, range: TimeRange): (r: Result<string>)
    ensures r.Err? <==> Malformed(e)
  {
    match ReadStamp(e.data)
    case Err(msg) => Err(msg)
    case Ok(st) => Ok(PeriodLabel(range, st))
  }

  /** `data` has fewer than two slashes, so `anoHora` is undefined. */
  predicate Malformed(e: Event)
  {
    Occurrences(e.data, '/') < 2
  }

  /** A record whose `data` the server wrote for `d` (at a whole minute) is
      labelled with the week `d` falls in, and its month and day labels rank
      by year then month and by month then day. */
  lemma WrittenRecordLabel(e: Event, d: DateTime)
    requires IsValid(d) && 0 <= d.year <= 9999 && d.second == 0 && e.data == WrittenData(d)
    ensures EventLabel(e, Week) == Ok("Semana " + NatToString(WeekNumber(d)))
    ensures EventLabel(e, Month).Ok? && SortKey(EventLabel(e, Month).value) == d.year * 100 + d.month
    ensures EventLabel(e, Day).Ok? && SortKey(EventLabel(e, Day).value) == d.month * 100 + d.day
  {
    WrittenLabels(d);
  }

  /** The record is labelled and has a known emotion, so it is counted. */
  function Counted(range: TimeRange): Event -> bool
  {
    (e: Event) => EventLabel(e, range).Ok? && EmotionLabel(e.emocao).Some?
  }

  /** The record is counted under label `w` and emotion name `m`. */
  function CountedAs(range: TimeRange, w: string, m: string): Event -> bool
  {
    (e: Event) => EventLabel(e, range) == Ok(w) && EmotionLabel(e.emocao) == Some(m)
  }

  /** The labels of the counted records, in record order. */
  function CountedLabels(kept: seq<Event>, range: TimeRange): seq<string>
  {
    if |kept| == 0 then []
    else
      var e := kept[|kept| - 1];
      CountedLabels(kept[..|kept| - 1], range)
        + (if Counted(range)(e) then [EventLabel(e, range).value] else [])
  }

  /** The body of the `forEach` before grouping: label every record (the
      first malformed one aborts), then drop unknown emotion codes. */
  function Entries(kept: seq<Event>, range: TimeRange): (r: Result<seq<Entry>>)
    ensures r.Err? ==> r.message == SplitError
  {
    if |kept| == 0 then Ok([])
    else
      var e := kept[|kept| - 1];
      match Entries(kept[..|kept| - 1], range)
      case Err(msg) => Err(msg)
      case Ok(es) =>
        match EventLabel(e, range)
        case Err(msg) => Err(msg)
        case Ok(w) =>
          match EmotionLabel(e.emocao)
          case None => Ok(es)
          case Some(m) => Ok(es + [Entry(w, m)])
  }

  /** Labelling fails exactly when some kept record is malformed. */
  lemma EntriesFail(kept: seq<Event>, range: TimeRange)
    ensures Entries(kept, range).Err? <==> exists i :: 0 <= i < |kept| && Malformed(kept[i])
  {
    if Entries(kept, range).Err? {
      var i := FailureWitness(kept, range);
    }
    if exists i :: 0 <= i < |kept| && Malformed(kept[i]) {
      var i :| 0 <= i < |kept| && Malformed(kept[i]);
      FailureAt(kept, range, i);
    }
  }

  lemma {:induction false} FailureWitness(kept: seq<Event>, range: TimeRange) returns (i: int)
    requires Entries(kept, range).Err?
    ensures 0 <= i < |kept| && Malformed(kept[i])
    decreases |kept|
  {
    var init := kept[..|kept| - 1];
    if Entries(init, range).Err? {
      i := FailureWitness(init, range);
      assert init[i] == kept[i];
    } else {
      i := |kept| - 1;
      assert EventLabel(kept[i], range).Err?;
    }
  }

  lemma {:induction false} FailureAt(kept: seq<Event>, range: TimeRange, i: int)
    requires 0 <= i < |kept| && Malformed(kept[i])
    ensures Entries(kept, range).Err?
    decreases |kept|
  {
    var init := kept[..|kept| - 1];
    if i < |init| {
      assert init[i] == kept[i];
      FailureAt(init, range, i);
    } else {
      assert EventLabel(kept[i], range).Err?;
    }
  }

  /** Each (label, emotion) entry count is the number of records counted under it. */
  lemma {:induction false} EntriesCount(kept: seq<Event>, range: TimeRange, w: string, m: string)
    requires Entries(kept, range).Ok?
    ensures Count(Entries(kept, range).value, EntryIs(w, m)) == Count(kept, CountedAs(range, w, m))
    decreases |kept|
  {
    if |kept| > 0 {
      var init := kept[..|kept| - 1];
      var e := kept[|kept| - 1];
      EntriesCount(init, range, w, m);
      var es := Entries(init, range).value;
      if Counted(range)(e) {
        var x := Entry(EventLabel(e, range).value, EmotionLabel(e.emocao).value);
        CountAppend(es, [x], EntryIs(w, m));
        assert [x][..0] == [];
      }
    }
  }

  /** The entry labels are the counted labels, in order. */
  lemma {:induction false} EntriesWeeks(kept: seq<Event>, range: TimeRange)
    requires Entries(kept, range).Ok?
    ensures EntryWeeks(Entries(kept, range).value) == CountedLabels(kept, range)
    decreases |kept|
  {
    if |kept| > 0 {
      EntriesWeeks(kept[..|kept| - 1], range);
    }
  }

  /** One entry per counted record. */
  lemma {:induction false} EntriesLength(kept: seq<Event>, range: TimeRange)
    requires Entries(kept, range).Ok?
    ensures |Entries(kept, range).value| == Count(kept, Counted(range))
    decreases |kept|
  {
    if |kept| > 0 {
      EntriesLength(kept[..|kept| - 1], range);
    }
  }

  // ---------------------------------------------------------------------
  // Aggregation
  // ---------------------------------------------------------------------

  /** The chart order: point `a` may come before point `b` when the sort key
      of its label is not larger (the comparator returns the difference of the keys). */
  function ByWeekKey(): (Point, Point) -> bool
  {
    (a: Point, b: Point) => SortKey(a.week) <= SortKey(b.week)
  }

  lemma ByWeekKeyIsTotalPreorder()
    ensures TotalPreorder(ByWeekKey())
  {
  }

  /** The body of `loadData` from `selectedTurmaNome` to the sort: the sorted
      chart points, or the error that aborted the aggregation. */
  function Aggregate(events: seq<Event>, f: Filters): (r: Result<seq<Point>>)
    ensures r.Err? ==> r.message == SplitError
  {
    match Entries(Kept(events, f), f.timeRange)
    case Err(msg) => Err(msg)
    case Ok(es) =>
      ByWeekKeyIsTotalPreorder();
      Ok(Sort(Group(es), ByWeekKey()))
  }

  /** The aggregation fails, with the split error, exactly when some record
      that passes the filters is malformed; it does not skip such a record. */
  lemma AggregateFails(events: seq<Event>, f: Filters)
    ensures Aggregate(events, f).Err? <==> exists e :: e in Kept(events, f) && Malformed(e)
    ensures Aggregate(events, f).Err? ==> Aggregate(events, f).message == SplitError
  {
    EntriesFail(Kept(events, f), f.timeRange);
  }

  /** The points come out in ascending order of the sort key of their labels. */
  lemma AggregateSorted(events: seq<Event>, f: Filters)
    requires Aggregate(events, f).Ok?
    ensures var ps := Aggregate(events, f).value;
            forall i, j :: 0 <= i < j < |ps| ==> SortKey(ps[i].week) <= SortKey(ps[j].week)
  {
    var ps := Aggregate(events, f).value;
    assert Sorted(ps, ByWeekKey());
    forall i, j | 0 <= i < j < |ps| ensures SortKey(ps[i].week) <= SortKey(ps[j].week) {
      assert ByWeekKey()(ps[i], ps[j]);
    }
  }

  /** One point per label, each with at least one emotion, no emotion twice
      and no zero count. */
  lemma AggregateWellFormed(events: seq<Event>, f: Filters)
    requires Aggregate(events, f).Ok?
    ensures WellFormed(Aggregate(events, f).value)
  {
    var es := Entries(Kept(events, f), f.timeRange).value;
    var g := Group(es);
    var ps := Aggregate(events, f).value;
    ByWeekKeyIsTotalPreorder();
    GroupWellFormed(es);
    var key := (p: Point) => p.week;
    forall i, j | 0 <= i < j < |g| ensures key(g[i]) != key(g[j]) {
      assert WeeksOf(g)[i] != WeeksOf(g)[j];
    }
    SortKeepsDistinctKeys(g, ByWeekKey(), key);
    forall i | 0 <= i < |ps| ensures PointOk(ps[i]) {
      assert ps[i] in multiset(g);
    }
    forall i, j | 0 <= i < j < |ps| ensures WeeksOf(ps)[i] != WeeksOf(ps)[j] {
      assert key(ps[i]) != key(ps[j]);
    }
  }

  /** Count exactness: under every label, each emotion's count is the number
      of kept records counted under that label and emotion. */
  lemma AggregateCount(events: seq<Event>, f: Filters, i: int, m: string)
    requires Aggregate(events, f).Ok?
    requires 0 <= i < |Aggregate(events, f).value|
    ensures var p := Aggregate(events, f).value[i];
            TallyOf(p.tallies, m) == Count(Kept(events, f), CountedAs(f.timeRange, p.week, m))
    ensures var p := Aggregate(events, f).value[i];
            forall j :: 0 <= j < |p.tallies| && p.tallies[j].emotion == m ==>
              p.tallies[j].count == Count(Kept(events, f), CountedAs(f.timeRange, p.week, m))
  {
    var kept := Kept(events, f);
    var es := Entries(kept, f.timeRange).value;
    var g := Group(es);
    var p := Aggregate(events, f).value[i];
    assert p in multiset(g);
    var k :| 0 <= k < |g| && g[k] == p;
    GroupWellFormed(es);
    CountOfAt(g, k, m);
    GroupCount(es, p.week, m);
    EntriesCount(kept, f.timeRange, p.week, m);
    forall j | 0 <= j < |p.tallies| && p.tallies[j].emotion == m
      ensures p.tallies[j].count == TallyOf(p.tallies, m)
    {
      TallyOfAt(p.tallies, j);
    }
  }

  /** The same count taken over the whole answer: the records that pass the
      filters and are counted under that label and emotion. */
  lemma AggregateCountOverRecords(events: seq<Event>, f: Filters, i: int, m: string)
    requires Aggregate(events, f).Ok?
    requires 0 <= i < |Aggregate(events, f).value|
    ensures var p := Aggregate(events, f).value[i];
            TallyOf(p.tallies, m) == Count(events, Both(Passes(f), CountedAs(f.timeRange, p.week, m)))
  {
    var p := Aggregate(events, f).value[i];
    AggregateCount(events, f, i, m);
    CountFilter(events, Passes(f), CountedAs(f.timeRange, p.week, m));
  }

  /** A label has a point exactly when some kept record is counted under it. */
  lemma AggregateLabels(events: seq<Event>, f: Filters, w: string)
    requires Aggregate(events, f).Ok?
    ensures w in WeeksOf(Aggregate(events, f).value) <==> w in CountedLabels(Kept(events, f), f.timeRange)
  {
    var kept := Kept(events, f);
    var es := Entries(kept, f.timeRange).value;
    var g := Group(es);
    var ps := Aggregate(events, f).value;
    GroupWeeks(es);
    EntriesWeeks(kept, f.timeRange);
    DedupMembers(EntryWeeks(es), w);
    if w in WeeksOf(ps) {
      var i :| 0 <= i < |ps| && WeeksOf(ps)[i] == w;
      assert ps[i] in multiset(g);
      var k :| 0 <= k < |g| && g[k] == ps[i];
      assert WeeksOf(g)[k] == w;
    }
    if w in WeeksOf(g) {
      var k :| 0 <= k < |g| && WeeksOf(g)[k] == w;
      assert g[k] in multiset(ps);
      var i :| 0 <= i < |ps| && ps[i] == g[k];
      assert WeeksOf(ps)[i] == w;
    }
  }

  /** The counts add up to the number of kept records that are counted. */
  lemma AggregateTotal(events: seq<Event>, f: Filters)
    requires Aggregate(events, f).Ok?
    ensures Sum(Aggregate(events, f).value, PointTotal) == Count(Kept(events, f), Counted(f.timeRange))
  {
    var es := Entries(Kept(events, f), f.timeRange).value;
    ByWeekKeyIsTotalPreorder();
    SortSum(Group(es), ByWeekKey(), PointTotal);
    GroupSum(es);
    EntriesLength(Kept(events, f), f.timeRange);
  }

  /** The point's label ranks like `w`. */
  function SameKeyAs(w: string): Point -> bool
  {
    (p: Point) => SortKey(p.week) == SortKey(w)
  }

  /** The label ranks like `w`. */
  function LabelKeyIs(w: string): string -> bool
  {
    (l: string) => SortKey(l) == SortKey(w)
  }

  lemma WeeksOfFilter(ps: seq<Point>, w: string)
    ensures WeeksOf(Filter(ps, SameKeyAs(w))) == Filter(WeeksOf(ps), LabelKeyIs(w))
  {
    WeeksOfFilterBy(ps, SameKeyAs(w), LabelKeyIs(w));
  }

  /** Filtering points by a test on their labels, then taking the labels, is
      taking the labels, then filtering them. */
  lemma {:induction false} WeeksOfFilterBy(ps: seq<Point>, p: Point -> bool, q: string -> bool)
    requires forall x :: p(x) == q(x.week)
    ensures WeeksOf(Filter(ps, p)) == Filter(WeeksOf(ps), q)
    decreases |ps|
  {
    if |ps| > 0 {
      var init := ps[..|ps| - 1];
      var last := ps[|ps| - 1];
      assert WeeksOf(ps)[..|ps| - 1] == WeeksOf(init);
      WeeksOfFilterBy(init, p, q);
      if p(last) {
        assert WeeksOf(Filter(init, p) + [last]) == WeeksOf(Filter(init, p)) + [last.week];
      } else {
        assert Filter(ps, p) == Filter(init, p);
      }
    }
  }

  /** Stability: the labels that rank alike keep the order in which they were
      first seen among the counted records. */
  lemma AggregateStable(events: seq<Event>, f: Filters, w: string)
    requires Aggregate(events, f).Ok?
    ensures WeeksOf(Filter(Aggregate(events, f).value, SameKeyAs(w)))
            == Filter(Dedup(CountedLabels(Kept(events, f), f.timeRange)), LabelKeyIs(w))
  {
    var kept := Kept(events, f);
    var es := Entries(kept, f.timeRange).value;
    var g := Group(es);
    var ps := Aggregate(events, f).value;
    var k := Point(w, []);
    ByWeekKeyIsTotalPreorder();
    SortIsStable(g, ByWeekKey(), k);
    FilterCongruent(ps, EquivTo(ByWeekKey(), k), SameKeyAs(w));
    FilterCongruent(g, EquivTo(ByWeekKey(), k), SameKeyAs(w));
    WeeksOfFilter(g, w);
    GroupWeeks(es);
    EntriesWeeks(kept, f.timeRange);
  }

  // ---------------------------------------------------------------------
  // Load state
  // ---------------------------------------------------------------------

  /** The message thrown when the response is not ok. */
  const FetchError := "Erro ao buscar dados do dashboard"

  /** `data` and `error` of the page. */
  datatype View = View(data: Option<seq<Point>>, error: Option<string>)

  /** One run of `loadData` given the response (`None` when it is not ok).
      A failure records the message and leaves `data` as it was. */
  function Reload(v: View, response: Option<seq<Event>>, f: Filters): (r: View)
    ensures r.error.None? <==> response.Some? && Aggregate(response.value, f).Ok?
    ensures r.error.None? ==> r.data == Some(Aggregate(response.value, f).value)
    ensures r.error.Some? ==> r.data == v.data
    ensures response.None? ==> r.error == Some(FetchError)
  {
    match response
    case None => v.(error := Some(FetchError))
    case Some(events) =>
      match Aggregate(events, f)
      case Err(msg) => v.(error := Some(msg))
      case Ok(ps) => View(Some(ps), None)
  }

  /** One malformed record that passes the filters fails the whole load:
      the split error is shown and the previous points stay. */
  lemma MalformedRecordFailsLoad(v: View, events: seq<Event>, f: Filters, e: Event)
    requires e in Kept(events, f) && Malformed(e)
    ensures Reload(v, Some(events), f) == v.(error := Some(SplitError))
  {
    AggregateFails(events, f);
  }

  // ---------------------------------------------------------------------
  // Emotions present and text export
  // ---------------------------------------------------------------------

  /** Every emotion key of every point, in point order. */
  function AllEmotions(ps: seq<Point>): seq<string>
  {
    if |ps| == 0 then [] else AllEmotions(ps[..|ps| - 1]) + EmotionsOf(ps[|ps| - 1].tallies)
  }

  /** `availableEmotions`, where missing data counts as no points. */
  function AvailableEmotions(data: Option<seq<Point>>): (r: seq<string>)
    ensures Distinct(r)
    ensures data.None? ==> r == []
  {
    Dedup(if data.None? then [] else AllEmotions(data.value))
  }

  lemma {:induction false} AllEmotionsMembers(ps: seq<Point>, m: string)
    ensures m in AllEmotions(ps) <==> exists i :: 0 <= i < |ps| && m in EmotionsOf(ps[i].tallies)
    decreases |ps|
  {
    if |ps| > 0 {
      var init := ps[..|ps| - 1];
      AllEmotionsMembers(init, m);
      assert forall i :: 0 <= i < |init| ==> init[i] == ps[i];
      if exists i :: 0 <= i < |ps| && m in EmotionsOf(ps[i].tallies) {
        var i :| 0 <= i < |ps| && m in EmotionsOf(ps[i].tallies);
        if i < |init| {
          assert m in EmotionsOf(init[i].tallies);
        }
      }
    }
  }

  /** The emotions offered are exactly those with a key in some point. */
  lemma AvailableEmotionsMembers(ps: seq<Point>, m: string)
    ensures m in AvailableEmotions(Some(ps)) <==> exists i :: 0 <= i < |ps| && m in EmotionsOf(ps[i].tallies)
  {
    DedupMembers(AllEmotions(ps), m);
    AllEmotionsMembers(ps, m);
  }

  /** After a successful aggregation the emotions offered are exactly those
      of the counted records. */
  lemma AvailableEmotionsOfAggregate(events: seq<Event>, f: Filters, m: string)
    requires Aggregate(events, f).Ok?
    ensures m in AvailableEmotions(Some(Aggregate(events, f).value)) <==>
            exists e :: e in Kept(events, f) && Counted(f.timeRange)(e) && EmotionLabel(e.emocao) == Some(m)
  {
    var ps := Aggregate(events, f).value;
    AvailableEmotionsMembers(ps, m);
    if exists i :: 0 <= i < |ps| && m in EmotionsOf(ps[i].tallies) {
      var i :| 0 <= i < |ps| && m in EmotionsOf(ps[i].tallies);
      KeyHasRecord(events, f, i, m);
    }
    if exists e :: e in Kept(events, f) && Counted(f.timeRange)(e) && EmotionLabel(e.emocao) == Some(m) {
      var e :| e in Kept(events, f) && Counted(f.timeRange)(e) && EmotionLabel(e.emocao) == Some(m);
      var i := RecordHasKey(events, f, e, m);
    }
  }

  lemma KeyHasRecord(events: seq<Event>, f: Filters, i: int, m: string)
    requires Aggregate(events, f).Ok?
    requires 0 <= i < |Aggregate(events, f).value| && m in EmotionsOf(Aggregate(events, f).value[i].tallies)
    ensures exists e :: e in Kept(events, f) && Counted(f.timeRange)(e) && EmotionLabel(e.emocao) == Some(m)
  {
    var ps := Aggregate(events, f).value;
    AggregateWellFormed(events, f);
    assert PointOk(ps[i]);
    TallyPositive(ps[i].tallies, m);
    AggregateCount(events, f, i, m);
    CountPositive(Kept(events, f), CountedAs(f.timeRange, ps[i].week, m));
  }

  lemma RecordHasKey(events: seq<Event>, f: Filters, e: Event, m: string) returns (i: int)
    requires Aggregate(events, f).Ok?
    requires e in Kept(events, f) && Counted(f.timeRange)(e) && EmotionLabel(e.emocao) == Some(m)
    ensures 0 <= i < |Aggregate(events, f).value| && m in EmotionsOf(Aggregate(events, f).value[i].tallies)
  {
    var kept := Kept(events, f);
    var ps := Aggregate(events, f).value;
    var w := EventLabel(e, f.timeRange).value;
    CountedLabelsMembers(kept, f.timeRange, e);
    AggregateLabels(events, f, w);
    i :| 0 <= i < |ps| && WeeksOf(ps)[i] == w;
    AggregateCount(events, f, i, m);
    CountWitness(kept, CountedAs(f.timeRange, w, m), e);
    AggregateWellFormed(events, f);
    assert PointOk(ps[i]);
    TallyPositive(ps[i].tallies, m);
  }

  lemma {:induction false} CountPositive<T>(s: seq<T>, p: T -> bool)
    requires Count(s, p) > 0
    ensures exists x :: x in s && p(x)
    decreases |s|
  {
    if !p(s[|s| - 1]) {
      CountPositive(s[..|s| - 1], p);
      var x :| x in s[..|s| - 1] && p(x);
      assert x in s;
    }
  }

  lemma {:induction false} CountWitness<T>(s: seq<T>, p: T -> bool, x: T)
    requires x in s && p(x)
    ensures Count(s, p) > 0
    decreases |s|
  {
    if s[|s| - 1] != x {
      assert x in s[..|s| - 1] by {
        var i :| 0 <= i < |s| && s[i] == x;
        assert s[..|s| - 1][i] == x;
      }
      CountWitness(s[..|s| - 1], p, x);
    }
  }

  lemma {:induction false} CountedLabelsMembers(kept: seq<Event>, range: TimeRange, e: Event)
    requires e in kept && Counted(range)(e)
    ensures EventLabel(e, range).value in CountedLabels(kept, range)
    decreases |kept|
  {
    var pre, last := kept[..|kept| - 1], kept[|kept| - 1];
    assert CountedLabels(kept, range)
        == CountedLabels(pre, range) + (if Counted(range)(last) then [EventLabel(last, range).value] else []);
    if last != e {
      assert e in pre by {
        var i :| 0 <= i < |kept| && kept[i] == e;
        assert pre[i] == e;
      }
      CountedLabelsMembers(pre, range, e);
    }
  }

  /** The warning shown when there is nothing to export. */
  const NothingToExport := "Não há dados para exportar."

  /** The name of the downloaded file. */
  const ExportFileName := "dados_grafico.txt"

  /** What the export button does: warn, or download a text file. */
  datatype ExportOutcome = Warn(message: string) | Download(fileName: string, text: string)

  /** `  key: value` for one emotion key. */
  function TallyText(t: Tally): string
  {
    "  " + t.emotion + ": " + NatToString(t.count)
  }

  /** The text the inner `forEach` appends for the keys of one point. */
  function TalliesText(ts: seq<Tally>): string
  {
    if |ts| == 0 then "" else TalliesText(ts[..|ts| - 1]) + TallyText(ts[|ts| - 1]) + "\n"
  }

  /** The text appended for one point. */
  function PointText(p: Point): string
  {
    p.week + ":\n" + TalliesText(p.tallies) + "\n"
  }

  /** The text the outer `forEach` builds. */
  function ReportText(ps: seq<Point>): string
  {
    if |ps| == 0 then "" else ReportText(ps[..|ps| - 1]) + PointText(ps[|ps| - 1])
  }

  /** `exportDataToTxt`: a warning when there are no points, otherwise the report. */
  function ExportData(data: Option<seq<Point>>): (r: ExportOutcome)
    ensures r.Warn? <==> data.None? || |data.value| == 0
    ensures r.Warn? ==> r.message == NothingToExport
    ensures r.Download? ==> r.fileName == ExportFileName && r.text == ReportText(data.value)
  {
    if data.None? || |data.value| == 0 then Warn(NothingToExport)
    else Download(ExportFileName, ReportText(data.value))
  }

  /** Lines each followed by a newline. */
  function Terminated(ls: seq<string>): string
  {
    if |ls| == 0 then "" else ls[0] + "\n" + Terminated(ls[1..])
  }

  /** The `  key: value` lines of one point. */
  function TallyLines(ts: seq<Tally>): seq<string>
  {
    seq(|ts|, j requires 0 <= j < |ts| => TallyText(ts[j]))
  }

  /** The lines written for one point: its label, one per key, and a blank line. */
  function PointLines(p: Point): seq<string>
  {
    [p.week + ":"] + TallyLines(p.tallies) + [""]
  }

  /** The lines of the whole report, point after point. */
  function ReportLines(ps: seq<Point>): seq<string>
  {
    if |ps| == 0 then [] else ReportLines(ps[..|ps| - 1]) + PointLines(ps[|ps| - 1])
  }

  lemma {:induction false} TerminatedAppend(a: seq<string>, b: seq<string>)
    ensures Terminated(a + b) == Terminated(a) + Terminated(b)
    decreases |a|
  {
    if |a| > 0 {
      assert (a + b)[1..] == a[1..] + b;
      TerminatedAppend(a[1..], b);
    } else {
      assert a + b == b;
    }
  }

  lemma {:induction false} TalliesTextLines(ts: seq<Tally>)
    ensures TalliesText(ts) == Terminated(TallyLines(ts))
    decreases |ts|
  {
    var ls := TallyLines(ts);
    if |ts| > 0 {
      var init := ts[..|ts| - 1];
      TalliesTextLines(init);
      var ils := TallyLines(init);
      assert ls == ils + [TallyText(ts[|ts| - 1])];
      TerminatedAppend(ils, [TallyText(ts[|ts| - 1])]);
      assert [TallyText(ts[|ts| - 1])][1..] == [];
    }
  }

  /** The report is exactly its lines, each ended by a newline. */
  lemma {:induction false} ReportTextLines(ps: seq<Point>)
    ensures ReportText(ps) == Terminated(ReportLines(ps))
    decreases |ps|
  {
    if |ps| > 0 {
      var p := ps[|ps| - 1];
      ReportTextLines(ps[..|ps| - 1]);
      TerminatedAppend(ReportLines(ps[..|ps| - 1]), PointLines(p));
      PointTextLines(p);
    }
  }

  lemma PointTextLines(p: Point)
    ensures PointText(p) == Terminated(PointLines(p))
  {
    var ls := TallyLines(p.tallies);
    var t := TalliesText(p.tallies);
    calc {
      Terminated(PointLines(p));
      { assert PointLines(p) == [p.week + ":"] + (ls + [""]); }
      Terminated([p.week + ":"] + (ls + [""]));
      { TerminatedCons(p.week + ":", ls + [""]); }
      p.week + ":" + "\n" + Terminated(ls + [""]);
      { TerminatedAppend(ls, [""]); TerminatedCons("", []); TalliesTextLines(p.tallies); }
      p.week + ":" + "\n" + (t + "\n");
      { assert p.week + ":\n" == p.week + ":" + "\n"; }
      PointText(p);
    }
  }

  lemma TerminatedCons(x: string, rest: seq<string>)
    ensures Terminated([x] + rest) == x + "\n" + Terminated(rest)
  {
    assert ([x] + rest)[1..] == rest;
  }

  lemma ReportSnoc(ps: seq<Point>, p: Point)
    ensures ReportText(ps + [p]) == ReportText(ps) + PointText(p)
  {
    assert (ps + [p])[..|ps|] == ps;
  }

  /** Exporting the first points then the rest writes the two reports one
      after the other: point order is preserved. */
  lemma {:induction false} ReportAppend(a: seq<Point>, b: seq<Point>)
    ensures ReportText(a + b) == ReportText(a) + ReportText(b)
    decreases |b|
  {
    if |b| == 0 {
      assert a + b == a;
    } else {
      var init := b[..|b| - 1];
      var last := b[|b| - 1];
      assert a + b == (a + init) + [last];
      assert b == init + [last];
      ReportAppend(a, init);
      ReportSnoc(a + init, last);
      ReportSnoc(init, last);
    }
  }

  lemma {:induction false} JoinTerminated(ls: seq<string>)
    ensures Join(ls + [""], '\n') == Terminated(ls)
    decreases |ls|
  {
    if |ls| > 0 {
      assert (ls + [""])[1..] == ls[1..] + [""];
      JoinTerminated(ls[1..]);
    }
  }

  /** No label or emotion name holds a line break. */
  predicate SingleLine(ps: seq<Point>)
  {
    forall i :: 0 <= i < |ps| ==>
      && '\n' !in ps[i].week
      && forall j :: 0 <= j < |ps[i].tallies| ==> '\n' !in ps[i].tallies[j].emotion
  }

  lemma {:induction false} ReportLinesSingle(ps: seq<Point>)
    requires SingleLine(ps)
    ensures forall k :: 0 <= k < |ReportLines(ps)| ==> '\n' !in ReportLines(ps)[k]
    decreases |ps|
  {
    if |ps| > 0 {
      var p := ps[|ps| - 1];
      ReportLinesSingle(ps[..|ps| - 1]);
      forall j | 0 <= j < |p.tallies| ensures '\n' !in TallyText(p.tallies[j]) {
        var s := NatToString(p.tallies[j].count);
        assert forall c :: c in s ==> IsDigit(c);
      }
      assert '\n' !in p.week + ":";
    }
  }

  lemma ReportSplit(ps: seq<Point>)
    requires SingleLine(ps)
    ensures Split(ReportText(ps), '\n') == ReportLines(ps) + [""]
  {
    var ls := ReportLines(ps) + [""];
    ReportLinesSingle(ps);
    assert forall k :: 0 <= k < |ls| ==> '\n' !in ls[k] by {
      assert forall k :: 0 <= k < |ls| - 1 ==> ls[k] == ReportLines(ps)[k];
    }
    SplitJoin(ls, '\n');
    JoinTerminated(ReportLines(ps));
    ReportTextLines(ps);
  }

  /** Splitting the exported text at line breaks gives back the label line,
      the `  key: value` lines and the blank line of every point in order,
      then the empty piece after the final newline. */
  lemma ExportLines(ps: seq<Point>)
    requires |ps| > 0 && SingleLine(ps)
    ensures ExportData(Some(ps)).Download?
    ensures Split(ExportData(Some(ps)).text, '\n') == ReportLines(ps) + [""]
  {
    ReportSplit(ps);
  }
}
