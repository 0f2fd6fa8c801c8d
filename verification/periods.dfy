/** How the dashboard turns a record's `data` text ("dd/MM/yyyy HH:mm") into
    a period label, and how it ranks period labels. */
module Periods {
  import opened Basics
  import opened Text
  import opened Calendar

  /** `timeRange`; `All` groups like `Week` (the `default` of the switch). */
  datatype TimeRange = Day | Week | Month | All

  /** The pieces `loadData` destructures from `data`:
      the first three pieces of `data` split at slashes (day, month, and year
      with time), the year-with-time piece being split again at spaces.
      `hora` is absent when `anoHora` has no space. */
  datatype Stamp = Stamp(dia: string, mes: string, ano: string, hora: Option<string>)

  /** The message of the TypeError `anoHora.split` throws when `anoHora` is undefined. */
  const SplitError := "Cannot read properties of undefined (reading 'split')"

  /** Splits `data`; with fewer than two slashes there is no third piece and the split throws. */
  function ReadStamp(data: string): (r: Result<Stamp>)
    ensures r.Err? <==> Occurrences(data, '/') < 2
  {
    var parts := Split(data, '/');
    if |parts| < 3 then Err(SplitError)
    else
      var words := Split(parts[2], ' ');
      Ok(Stamp(parts[0], parts[1], words[0], if |words| >= 2 then Some(words[1]) else None))
  }

  /** Reading a stamp written as `dia/mes/ano hora` gives back its pieces. */
  lemma ReadStampOfWritten(dia: string, mes: string, ano: string, hora: string)
    requires '/' !in dia && '/' !in mes && '/' !in ano && '/' !in hora
    requires ' ' !in ano && ' ' !in hora
    ensures ReadStamp(dia + "/" + mes + "/" + ano + " " + hora) == Ok(Stamp(dia, mes, ano, Some(hora)))
  {
    var rest := ano + " " + hora;
    assert '/' !in rest by {
      assert forall i :: 0 <= i < |rest| ==> rest[i] in ano || rest[i] == ' ' || rest[i] in hora;
    }
    var parts := [dia, mes, rest];
    assert parts[1..] == [mes, rest] && [mes, rest][1..] == [rest];
    assert Join([mes, rest], '/') == mes + "/" + rest;
    assert Join(parts, '/') == dia + "/" + (mes + "/" + rest);
    assert dia + "/" + mes + "/" + ano + " " + hora == Join(parts, '/');
    SplitJoin([dia, mes, rest], '/');
    assert [ano, hora][1..] == [hora];
    assert rest == Join([ano, hora], ' ');
    SplitJoin([ano, hora], ' ');
  }

  /** The text handed to `new Date`: the year, month and day pieces joined by
      '-', then 'T' and the time piece, an absent time printing as "undefined". */
  function IsoText(st: Stamp): string
  {
    st.ano + "-" + st.mes + "-" + st.dia + "T" + (match st.hora case Some(h) => h case None => "undefined")
  }

  /** "Semana " followed by the week number of the parsed date; an Invalid
      Date gives NaN. */
  function WeekLabel(st: Stamp): (r: string)
    ensures IsPrefix("Semana ", r) && |r| > 7
  {
    "Semana " + match ParseLocal(IsoText(st))
                case Some(d) => NatToString(WeekNumber(d))
                case None => "NaN"
  }

  /** `timeLabel`, built from the raw pieces of `data`. */
  function PeriodLabel(range: TimeRange, st: Stamp): string
  {
    match range
    case Day => st.dia + "/" + st.mes
    case Month => st.mes + "/" + st.ano
    case Week => WeekLabel(st)
    case All => WeekLabel(st)
  }

  /** The whole label is two digits, a slash, then `n` digits. */
  predicate IsSlashed(lbl: string, n: nat)
  {
    |lbl| == 3 + n && AllDigits(lbl[..2]) && lbl[2] == '/' && AllDigits(lbl[3..])
  }

  /** `s` is exactly `n` decimal digits. */
  predicate IsDigits(s: string, n: nat)
  {
    |s| == n && AllDigits(s)
  }

  /** `sortKey(lbl)`: "Semana n" ranks as n (NaN as 0), "MM/yyyy" as
      yyyy*100 + MM, "dd/MM" as MM*100 + dd, anything else as 0. */
  function SortKey(lbl: string): nat
  {
    if IsPrefix("Semana", lbl) then
      match NumberOf(Trim(lbl[6..]))
      case Some(n) => n
      case None => 0
    else if IsSlashed(lbl, 4) then DigitsValue(lbl[3..]) * 100 + DigitsValue(lbl[..2])
    else if IsSlashed(lbl, 2) then DigitsValue(lbl[3..]) * 100 + DigitsValue(lbl[..2])
    else 0
  }

  lemma TrimPadded(t: string)
    requires |t| > 0 && !IsJsWhitespace(t[0]) && !IsJsWhitespace(t[|t| - 1])
    ensures Trim(" " + t) == t
  {
    var s := " " + t;
    assert SkipBlanks(s, 1) == 1;
    assert SkipBlanks(s, 0) == 1;
    assert BackBlanks(s, 1, |s|) == |s|;
    assert s[1..|s|] == t;
  }

  /** The week label ranks by its week number. */
  lemma WeekLabelKey(n: nat)
    ensures SortKey("Semana " + NatToString(n)) == n
  {
    var t := NatToString(n);
    var lbl := "Semana " + t;
    assert lbl[..6] == "Semana";
    assert lbl[6..] == " " + t;
    TrimPadded(t);
    NatToStringRoundTrip(n);
  }

  /** The period label ranks as the source intends whenever its pieces have
      the expected widths: by week number, by year then month, or by month
      then day (ignoring the year). */
  lemma PeriodLabelKey(range: TimeRange, st: Stamp)
    ensures (range == Week || range == All) ==>
              SortKey(PeriodLabel(range, st))
              == match ParseLocal(IsoText(st)) case Some(d) => WeekNumber(d) case None => 0
    ensures range == Month && IsDigits(st.mes, 2) && IsDigits(st.ano, 4) ==>
              SortKey(PeriodLabel(range, st)) == DigitsValue(st.ano) * 100 + DigitsValue(st.mes)
    ensures range == Day && IsDigits(st.dia, 2) && IsDigits(st.mes, 2) ==>
              SortKey(PeriodLabel(range, st)) == DigitsValue(st.mes) * 100 + DigitsValue(st.dia)
    ensures (range == Month && |st.mes| == 1) || (range == Day && |st.dia| == 1) ==>
              SortKey(PeriodLabel(range, st)) == 0
  {
    match range {
      case Week => WeekKey(st);
      case All => WeekKey(st);
      case Month =>
        if IsDigits(st.mes, 2) && IsDigits(st.ano, 4) { SlashedKey(st.mes, st.ano); }
        if |st.mes| == 1 { UnpaddedKey(st.mes, st.ano); }
      case Day =>
        if IsDigits(st.dia, 2) && IsDigits(st.mes, 2) { SlashedKey(st.dia, st.mes); }
        if |st.dia| == 1 { UnpaddedKey(st.dia, st.mes); }
    }
  }

  lemma WeekKey(st: Stamp)
    ensures SortKey(WeekLabel(st)) == match ParseLocal(IsoText(st)) case Some(d) => WeekNumber(d) case None => 0
  {
    match ParseLocal(IsoText(st)) {
      case Some(d) => WeekLabelKey(WeekNumber(d));
      case None =>
        var lbl := WeekLabel(st);
        assert lbl == "Semana " + "NaN";
        assert lbl[..6] == "Semana";
        assert lbl[6..] == " " + "NaN";
        TrimPadded("NaN");
    }
  }

  lemma SlashedKey(a: string, b: string)
    requires IsDigits(a, 2) && (IsDigits(b, 4) || IsDigits(b, 2))
    ensures SortKey(a + "/" + b) == DigitsValue(b) * 100 + DigitsValue(a)
  {
    var lbl := a + "/" + b;
    assert lbl[..2] == a && lbl[3..] == b && lbl[2] == '/';
    assert !IsPrefix("Semana", lbl) by {
      assert IsDigit(lbl[0]);
    }
  }

  /** A label whose first piece is one character wide ("6/2024") matches
      neither "Semana" nor either slashed pattern, so it ranks as 0. */
  lemma UnpaddedKey(a: string, b: string)
    requires |a| == 1
    ensures SortKey(a + "/" + b) == 0
  {
    var lbl := a + "/" + b;
    assert lbl[1] == '/';
    assert !IsPrefix("Semana", lbl) by {
      if |lbl| >= 6 {
        assert lbl[..6][1] == '/';
      }
    }
  }

  /** A record's `data` as the server writes it, "dd/MM/yyyy HH:mm", for `d`. */
  function WrittenData(d: DateTime): string
    requires IsValid(d) && 0 <= d.year <= 9999
  {
    Fixed(d.day, 2) + "/" + Fixed(d.month, 2) + "/" + Fixed(d.year, 4) + " " + Fixed(d.hour, 2) + ":" + Fixed(d.minute, 2)
  }

  lemma DigitsHaveNoSeparator(s: string)
    requires AllDigits(s)
    ensures '/' !in s && ' ' !in s
  {
  }

  /** The stamp read from a record written for `d`. */
  function WrittenStamp(d: DateTime): Stamp
    requires IsValid(d) && 0 <= d.year <= 9999
  {
    Stamp(Fixed(d.day, 2), Fixed(d.month, 2), Fixed(d.year, 4), Some(Fixed(d.hour, 2) + ":" + Fixed(d.minute, 2)))
  }

  /** Reading a written record gives back its zero-padded pieces. */
  lemma ReadWritten(d: DateTime)
    requires IsValid(d) && 0 <= d.year <= 9999
    ensures ReadStamp(WrittenData(d)) == Ok(WrittenStamp(d))
  {
    var dia, mes, ano := Fixed(d.day, 2), Fixed(d.month, 2), Fixed(d.year, 4);
    var hh, mm := Fixed(d.hour, 2), Fixed(d.minute, 2);
    var hora := hh + ":" + mm;
    DigitsHaveNoSeparator(dia);
    DigitsHaveNoSeparator(mes);
    DigitsHaveNoSeparator(ano);
    DigitsHaveNoSeparator(hh);
    DigitsHaveNoSeparator(mm);
    assert '/' !in hora && ' ' !in hora by {
      assert forall i :: 0 <= i < |hora| ==> hora[i] in hh || hora[i] == ':' || hora[i] in mm;
    }
    assert WrittenData(d) == dia + "/" + mes + "/" + ano + " " + hora;
    ReadStampOfWritten(dia, mes, ano, hora);
  }

  /** A well-formed record at a whole minute is labelled with its own date:
      the week label carries the week number of `d`, and the month and day
      labels rank by year then month and by month then day. */
  lemma WrittenLabels(d: DateTime)
    requires IsValid(d) && 0 <= d.year <= 9999 && d.second == 0
    ensures ReadStamp(WrittenData(d)) == Ok(WrittenStamp(d))
    ensures PeriodLabel(Week, WrittenStamp(d)) == "Semana " + NatToString(WeekNumber(d))
    ensures SortKey(PeriodLabel(Month, WrittenStamp(d))) == d.year * 100 + d.month
    ensures SortKey(PeriodLabel(Day, WrittenStamp(d))) == d.month * 100 + d.day
  {
    var st := WrittenStamp(d);
    ReadWritten(d);
    assert IsoText(st) == FormatMinutes(d);
    ParseFormatMinutes(d);
    assert Pow10(2) == 100 && Pow10(4) == 10000;
    FixedValue(d.day, 2);
    FixedValue(d.month, 2);
    FixedValue(d.year, 4);
    PeriodLabelKey(Month, st);
    PeriodLabelKey(Day, st);
  }
}
