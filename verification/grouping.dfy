/** The `grouped` object `loadData` builds: one point per period label, in the
    order labels are first seen, each holding a count per emotion name in the
    order emotions are first seen under that label (JavaScript keeps string
    keys in insertion order). Only emotions seen at least once get a key. */
module Grouping {
  import opened Seqs

  /** One `emotion: count` property of a point. */
  datatype Tally = Tally(emotion: string, count: nat)

  /** One chart point: `{ week: label, [emotion]: count, ... }`. */
  datatype Point = Point(week: string, tallies: seq<Tally>)

  /** A record reduced to what grouping uses: its period label and emotion name. */
  datatype Entry = Entry(week: string, emotion: string)

  function EmotionsOf(ts: seq<Tally>): seq<string>
  {
    seq(|ts|, i requires 0 <= i < |ts| => ts[i].emotion)
  }

  function WeeksOf(ps: seq<Point>): seq<string>
  {
    seq(|ps|, i requires 0 <= i < |ps| => ps[i].week)
  }

  function EntryWeeks(es: seq<Entry>): seq<string>
  {
    seq(|es|, i requires 0 <= i < |es| => es[i].week)
  }

  /** The entry has label `w` and emotion `m`. */
  function EntryIs(w: string, m: string): Entry -> bool
  {
    (e: Entry) => e.week == w && e.emotion == m
  }

  /** Total count recorded for emotion `m`. */
  function TallyOf(ts: seq<Tally>, m: string): nat
  {
    if |ts| == 0 then 0
    else (if ts[0].emotion == m then ts[0].count else 0) + TallyOf(ts[1..], m)
  }

  /** Total count recorded for emotion `m` under label `w`. */
  function CountOf(ps: seq<Point>, w: string, m: string): nat
  {
    if |ps| == 0 then 0
    else (if ps[0].week == w then TallyOf(ps[0].tallies, m) else 0) + CountOf(ps[1..], w, m)
  }

  function TallySum(ts: seq<Tally>): nat
  {
    if |ts| == 0 then 0 else ts[0].count + TallySum(ts[1..])
  }

  /** Sum of all counts of a point. */
  function PointTotal(p: Point): int
  {
    TallySum(p.tallies)
  }

  /** A point has at least one emotion key, no key twice and no zero count. */
  predicate PointOk(p: Point)
  {
    && |p.tallies| > 0
    && Distinct(EmotionsOf(p.tallies))
    && forall j :: 0 <= j < |p.tallies| ==> p.tallies[j].count > 0
  }

  /** No label twice and every point well formed. */
  predicate WellFormed(ps: seq<Point>)
  {
    Distinct(WeeksOf(ps)) && forall i :: 0 <= i < |ps| ==> PointOk(ps[i])
  }

  /** One more record of emotion `m`: its count goes up by one in place, or
      `m` is appended with count 1 when the point does not name it yet. */
  function Bump(ts: seq<Tally>, m: string): seq<Tally>
  {
    if |ts| == 0 then [Tally(m, 1)]
    else if ts[0].emotion == m then [Tally(m, ts[0].count + 1)] + ts[1..]
    else [ts[0]] + Bump(ts[1..], m)
  }

  /** One iteration of the `forEach`: creates the point for a new label, then bumps the emotion. */
  function Add(ps: seq<Point>, e: Entry): seq<Point>
  {
    if |ps| == 0 then [Point(e.week, [Tally(e.emotion, 1)])]
    else if ps[0].week == e.week then [ps[0].(tallies := Bump(ps[0].tallies, e.emotion))] + ps[1..]
    else [ps[0]] + Add(ps[1..], e)
  }

  /** `Object.values(grouped)` after the `forEach` over the entries in order. */
  function Group(es: seq<Entry>): seq<Point>
  {
    if |es| == 0 then [] else Add(Group(es[..|es| - 1]), es[|es| - 1])
  }

  lemma DistinctSnoc<T>(s: seq<T>, x: T)
    requires Distinct(s) && x !in s
    ensures Distinct(s + [x])
  {
  }

  /** Bumping adds exactly one to emotion `m`, keeps the other counts, and
      appends `m` as a key only when it was missing. */
  lemma {:induction false} BumpFacts(ts: seq<Tally>, m: string)
    ensures forall x :: TallyOf(Bump(ts, m), x) == TallyOf(ts, x) + (if x == m then 1 else 0)
    ensures EmotionsOf(Bump(ts, m)) == if m in EmotionsOf(ts) then EmotionsOf(ts) else EmotionsOf(ts) + [m]
    ensures (forall j :: 0 <= j < |ts| ==> ts[j].count > 0) ==>
              forall j :: 0 <= j < |Bump(ts, m)| ==> Bump(ts, m)[j].count > 0
    ensures TallySum(Bump(ts, m)) == TallySum(ts) + 1
    decreases |ts|
  {
    if |ts| > 0 {
      var r := Bump(ts, m);
      assert EmotionsOf(ts) == [ts[0].emotion] + EmotionsOf(ts[1..]);
      if ts[0].emotion == m {
        assert r[1..] == ts[1..];
        assert EmotionsOf(r) == EmotionsOf(ts);
      } else {
        BumpFacts(ts[1..], m);
        assert r[1..] == Bump(ts[1..], m);
        assert EmotionsOf(r) == [ts[0].emotion] + EmotionsOf(Bump(ts[1..], m));
      }
    }
  }

  lemma BumpKeepsPointOk(p: Point, m: string)
    requires PointOk(p)
    ensures PointOk(p.(tallies := Bump(p.tallies, m)))
  {
    BumpFacts(p.tallies, m);
    if m !in EmotionsOf(p.tallies) {
      DistinctSnoc(EmotionsOf(p.tallies), m);
    }
  }

  /** Adding an entry adds one to its own (label, emotion) count and to no other. */
  lemma {:induction false} AddCount(ps: seq<Point>, e: Entry, w: string, m: string)
    ensures CountOf(Add(ps, e), w, m) == CountOf(ps, w, m) + (if e.week == w && e.emotion == m then 1 else 0)
    decreases |ps|
  {
    var r := Add(ps, e);
    if |ps| > 0 {
      if ps[0].week == e.week {
        BumpFacts(ps[0].tallies, e.emotion);
        assert r[1..] == ps[1..];
      } else {
        AddCount(ps[1..], e, w, m);
        assert r[1..] == Add(ps[1..], e);
      }
    } else {
      assert r[1..] == [] && r[0].tallies[1..] == [];
      assert CountOf(r, w, m) == (if e.week == w then TallyOf(r[0].tallies, m) else 0) + CountOf(r[1..], w, m);
      assert TallyOf(r[0].tallies, m) == (if e.emotion == m then 1 else 0) + TallyOf(r[0].tallies[1..], m);
    }
  }

  /** Adding an entry appends its label only when the label is new. */
  lemma {:induction false} AddWeeks(ps: seq<Point>, e: Entry)
    ensures WeeksOf(Add(ps, e)) == if e.week in WeeksOf(ps) then WeeksOf(ps) else WeeksOf(ps) + [e.week]
    decreases |ps|
  {
    var r := Add(ps, e);
    if |ps| > 0 {
      assert WeeksOf(ps) == [ps[0].week] + WeeksOf(ps[1..]);
      if ps[0].week == e.week {
        assert r[1..] == ps[1..];
        assert WeeksOf(r) == [r[0].week] + WeeksOf(r[1..]);
      } else {
        AddWeeks(ps[1..], e);
        assert r[1..] == Add(ps[1..], e);
        assert WeeksOf(r) == [ps[0].week] + WeeksOf(Add(ps[1..], e));
      }
    }
  }

  /** Adding an entry keeps the points well formed. */
  lemma {:induction false} AddWellFormed(ps: seq<Point>, e: Entry)
    requires WellFormed(ps)
    ensures WellFormed(Add(ps, e))
  {
    var r := Add(ps, e);
    AddWeeks(ps, e);
    if e.week !in WeeksOf(ps) {
      DistinctSnoc(WeeksOf(ps), e.week);
    }
    AddPointsOk(ps, e);
  }

  lemma {:induction false} AddPointsOk(ps: seq<Point>, e: Entry)
    requires forall i :: 0 <= i < |ps| ==> PointOk(ps[i])
    ensures forall i :: 0 <= i < |Add(ps, e)| ==> PointOk(Add(ps, e)[i])
    decreases |ps|
  {
    var r := Add(ps, e);
    if |ps| == 0 {
      assert EmotionsOf(r[0].tallies) == [e.emotion];
    } else if ps[0].week == e.week {
      BumpKeepsPointOk(ps[0], e.emotion);
      assert forall i :: 1 <= i < |r| ==> r[i] == ps[i];
    } else {
      AddPointsOk(ps[1..], e);
      assert forall i :: 1 <= i < |r| ==> r[i] == Add(ps[1..], e)[i - 1];
    }
  }

  /** Adding an entry adds one to the total of all counts. */
  lemma {:induction false} AddSum(ps: seq<Point>, e: Entry)
    ensures Sum(Add(ps, e), PointTotal) == Sum(ps, PointTotal) + 1
    decreases |ps|
  {
    var r := Add(ps, e);
    if |ps| == 0 {
      assert r[..0] == [] && r[0].tallies[1..] == [];
      assert PointTotal(r[0]) == 1 + TallySum(r[0].tallies[1..]);
      assert Sum(r, PointTotal) == Sum(r[..0], PointTotal) + PointTotal(r[0]);
    } else {
      assert ps == [ps[0]] + ps[1..];
      assert r == [r[0]] + r[1..];
      SumCons(ps[0], ps[1..], PointTotal);
      SumCons(r[0], r[1..], PointTotal);
      if ps[0].week == e.week {
        BumpFacts(ps[0].tallies, e.emotion);
        assert r[1..] == ps[1..];
      } else {
        AddSum(ps[1..], e);
        assert r[1..] == Add(ps[1..], e);
      }
    }
  }

  lemma {:induction false} SumCons<T>(x: T, s: seq<T>, f: T -> int)
    ensures Sum([x] + s, f) == f(x) + Sum(s, f)
    decreases |s|
  {
    if |s| > 0 {
      assert ([x] + s)[..|s|] == [x] + s[..|s| - 1];
      SumCons(x, s[..|s| - 1], f);
    }
  }

  /** Grouping counts every entry under its own label and emotion. */
  lemma {:induction false} GroupCount(es: seq<Entry>, w: string, m: string)
    ensures CountOf(Group(es), w, m) == Count(es, EntryIs(w, m))
    decreases |es|
  {
    if |es| > 0 {
      GroupCount(es[..|es| - 1], w, m);
      AddCount(Group(es[..|es| - 1]), es[|es| - 1], w, m);
    }
  }

  /** Grouping lists the labels in first-seen order. */
  lemma {:induction false} GroupWeeks(es: seq<Entry>)
    ensures WeeksOf(Group(es)) == Dedup(EntryWeeks(es))
    decreases |es|
  {
    if |es| > 0 {
      GroupWeeks(es[..|es| - 1]);
      AddWeeks(Group(es[..|es| - 1]), es[|es| - 1]);
      assert EntryWeeks(es[..|es| - 1]) == EntryWeeks(es)[..|es| - 1];
    }
  }

  /** Grouping builds well-formed points. */
  lemma {:induction false} GroupWellFormed(es: seq<Entry>)
    ensures WellFormed(Group(es))
    decreases |es|
  {
    if |es| > 0 {
      GroupWellFormed(es[..|es| - 1]);
      AddWellFormed(Group(es[..|es| - 1]), es[|es| - 1]);
    }
  }

  /** Grouping loses no entry: the counts add up to the number of entries. */
  lemma {:induction false} GroupSum(es: seq<Entry>)
    ensures Sum(Group(es), PointTotal) == |es|
    decreases |es|
  {
    if |es| > 0 {
      GroupSum(es[..|es| - 1]);
      AddSum(Group(es[..|es| - 1]), es[|es| - 1]);
    }
  }

  /** With distinct keys, the count for a key is the one stored under it. */
  lemma {:induction false} TallyOfAt(ts: seq<Tally>, j: int)
    requires Distinct(EmotionsOf(ts)) && 0 <= j < |ts|
    ensures TallyOf(ts, ts[j].emotion) == ts[j].count
    decreases |ts|
  {
    assert EmotionsOf(ts[1..]) == EmotionsOf(ts)[1..];
    if j == 0 {
      assert ts[0].emotion !in EmotionsOf(ts[1..]) by {
        forall k | 0 <= k < |ts| - 1 ensures EmotionsOf(ts[1..])[k] != ts[0].emotion {
          assert EmotionsOf(ts)[0] != EmotionsOf(ts)[k + 1];
        }
      }
      TallyOfAbsent(ts[1..], ts[0].emotion);
    } else {
      assert ts[0].emotion != ts[j].emotion by {
        assert EmotionsOf(ts)[0] != EmotionsOf(ts)[j];
      }
      assert ts[1..][j - 1] == ts[j];
      TallyOfAt(ts[1..], j - 1);
    }
  }

  lemma {:induction false} TallyOfAbsent(ts: seq<Tally>, m: string)
    requires m !in EmotionsOf(ts)
    ensures TallyOf(ts, m) == 0
    decreases |ts|
  {
    if |ts| > 0 {
      assert EmotionsOf(ts)[0] == ts[0].emotion;
      assert EmotionsOf(ts[1..]) == EmotionsOf(ts)[1..];
      TallyOfAbsent(ts[1..], m);
    }
  }

  /** With distinct labels, the count under a label is the one stored in its point. */
  lemma {:induction false} CountOfAt(ps: seq<Point>, i: int, m: string)
    requires Distinct(WeeksOf(ps)) && 0 <= i < |ps|
    ensures CountOf(ps, ps[i].week, m) == TallyOf(ps[i].tallies, m)
    decreases |ps|
  {
    assert WeeksOf(ps[1..]) == WeeksOf(ps)[1..];
    if i == 0 {
      assert ps[0].week !in WeeksOf(ps[1..]) by {
        forall k | 0 <= k < |ps| - 1 ensures WeeksOf(ps[1..])[k] != ps[0].week {
          assert WeeksOf(ps)[0] != WeeksOf(ps)[k + 1];
        }
      }
      CountOfAbsent(ps[1..], ps[0].week, m);
    } else {
      assert ps[0].week != ps[i].week by {
        assert WeeksOf(ps)[0] != WeeksOf(ps)[i];
      }
      assert ps[1..][i - 1] == ps[i];
      CountOfAt(ps[1..], i - 1, m);
    }
  }

  lemma {:induction false} CountOfAbsent(ps: seq<Point>, w: string, m: string)
    requires w !in WeeksOf(ps)
    ensures CountOf(ps, w, m) == 0
    decreases |ps|
  {
    if |ps| > 0 {
      assert WeeksOf(ps)[0] == ps[0].week;
      assert WeeksOf(ps[1..]) == WeeksOf(ps)[1..];
      CountOfAbsent(ps[1..], w, m);
    }
  }

  /** The emotion keys of a well-formed point are exactly the emotions with a
      positive count. */
  lemma {:induction false} TallyPositive(ts: seq<Tally>, m: string)
    requires forall j :: 0 <= j < |ts| ==> ts[j].count > 0
    ensures TallyOf(ts, m) > 0 <==> m in EmotionsOf(ts)
    decreases |ts|
  {
    if |ts| > 0 {
      assert EmotionsOf(ts) == [ts[0].emotion] + EmotionsOf(ts[1..]);
      TallyPositive(ts[1..], m);
    }
  }
}
