/**
 The per-box switch for the end of an entry window, "HH:MM".  An unset switch is the default 10:30; a
 refused one is the default too, and is remembered so that it can be named.
 */
module EntryEnd {
  import opened Text
  import Decimal

  datatype HourMinute = HourMinute(hour: nat, minute: nat)

  const DEFAULT_END := HourMinute(10, 30)
  const EARLIEST := HourMinute(9, 36)
  const ENTRIES_STOP := HourMinute(15, 40)

  predicate NotAfter(a: HourMinute, b: HourMinute) {
    a.hour < b.hour || (a.hour == b.hour && a.minute <= b.minute)
  }

  predicate Allowed(t: HourMinute) {
    t.minute < 60 && NotAfter(EARLIEST, t) && NotAfter(t, ENTRIES_STOP)
  }

  /** The fields between colons. */
  function Fields(s: string): (fs: seq<string>)
    ensures fs != []
  {
    if s == "" then [""]
    else if s[0] == ':' then [""] + Fields(s[1..])
    else
      var fs := Fields(s[1..]);
      [[s[0]] + fs[0]] + fs[1..]
  }

  predicate WellFormed(s: string) {
    var fs := Fields(s);
    |fs| == 2 && Decimal.IsNumeral(fs[0]) && Decimal.IsNumeral(fs[1])
  }

  function Value(s: string): HourMinute
    requires WellFormed(s)
  {
    HourMinute(Decimal.Read(Fields(s)[0]), Decimal.Read(Fields(s)[1]))
  }

  predicate Accepted(s: string) {
    WellFormed(s) && Allowed(Value(s))
  }

  /** One window's switch and the refused text it keeps for the report. */
  class Switch {
    var refused: string

    constructor ()
      ensures refused == ""
    {
      refused := "";
    }

    method WindowEnd(env: string) returns (end: HourMinute)
      modifies this
      ensures Allowed(end)
      ensures Accepted(Strip(env)) ==> end == Value(Strip(env))
      ensures !Accepted(Strip(env)) ==> end == HourMinute(10, 30)
      ensures refused == if Strip(env) != "" && !Accepted(Strip(env)) then Strip(env) else old(refused)
    {
      var raw := Strip(env);
      if raw == "" {
        return DEFAULT_END;
      }
      var parts := Fields(raw);
      if |parts| != 2 || !Decimal.IsNumeral(parts[0]) || !Decimal.IsNumeral(parts[1]) {
        refused := raw;
        return DEFAULT_END;
      }
      var hm := HourMinute(Decimal.Read(parts[0]), Decimal.Read(parts[1]));
      if !(hm.minute < 60 && NotAfter(EARLIEST, hm) && NotAfter(hm, ENTRIES_STOP)) {
        refused := raw;
        return DEFAULT_END;
      }
      return hm;
    }
  }

  /** From 09:36 to 15:40, in minutes of the day. */
  lemma {:induction false} AllowedIff(t: HourMinute)
    ensures Allowed(t) <==> t.minute < 60 && 576 <= 60 * t.hour + t.minute <= 940
  {
  }

  /** The text is cut at every colon: each stretch without one is a field, empty ones too. */
  lemma {:induction false} FieldsAreCutAtColons(a: string, rest: string)
    requires forall i :: 0 <= i < |a| ==> a[i] != ':'
    ensures Fields(a) == [a]
    ensures Fields(a + ":" + rest) == [a] + Fields(rest)
    decreases |a|
  {
    var s := a + ":" + rest;
    FieldsOfOne(a);
    if a == "" {
      assert s[1..] == rest;
    } else {
      assert s[1..] == a[1..] + ":" + rest;
      FieldsAreCutAtColons(a[1..], rest);
      assert [a[0]] + a[1..] == a;
    }
  }

  /** How the reports print a time: the minute always has two digits. */
  function Hhmm(t: HourMinute): string
    requires t.minute < 60
  {
    Decimal.Show(t.hour) + ":" + ((if t.minute < 10 then "0" else "") + Decimal.Show(t.minute))
  }

  lemma {:induction false} FieldsOfPair(a: string, b: string)
    requires forall i :: 0 <= i < |a| ==> a[i] != ':'
    requires forall i :: 0 <= i < |b| ==> b[i] != ':'
    ensures Fields(a + ":" + b) == [a, b]
  {
    FieldsAreCutAtColons(a, b);
    FieldsAreCutAtColons(b, "");
  }

  lemma {:induction false} FieldsOfOne(b: string)
    requires forall i :: 0 <= i < |b| ==> b[i] != ':'
    ensures Fields(b) == [b]
  {
    if b != "" {
      FieldsOfOne(b[1..]);
      assert [b[0]] + b[1..] == b;
    }
  }

  lemma {:induction false} StripKeeps(s: string)
    requires s == "" || (!IsSpace(s[0]) && !IsSpace(s[|s| - 1]))
    ensures Strip(s) == s
  {
  }

  lemma {:induction false} NumeralsHaveNoColon(s: string)
    requires Decimal.IsNumeral(s)
    ensures forall i :: 0 <= i < |s| ==> s[i] != ':' && !IsSpace(s[i])
  {
  }

  /** The minute field as it is printed. */
  function TwoDigits(minute: nat): string {
    (if minute < 10 then "0" else "") + Decimal.Show(minute)
  }

  lemma {:induction false} TwoDigitsRead(minute: nat)
    ensures Decimal.IsNumeral(TwoDigits(minute)) && Decimal.Read(TwoDigits(minute)) == minute
  {
    var m := Decimal.Show(minute);
    Decimal.RoundTrip(minute);
    Decimal.LeadingZero(m);
    assert minute >= 10 ==> TwoDigits(minute) == m;
    assert minute < 10 ==> TwoDigits(minute) == "0" + m;
  }

  lemma {:induction false} PairReads(h: string, m: string)
    requires Decimal.IsNumeral(h) && Decimal.IsNumeral(m)
    ensures var s := h + ":" + m;
      Strip(s) == s && Fields(s) == [h, m]
  {
    var s := h + ":" + m;
    NumeralsHaveNoColon(h);
    NumeralsHaveNoColon(m);
    FieldsOfPair(h, m);
    assert s[0] == h[0] && s[|s| - 1] == m[|m| - 1];
    StripKeeps(s);
  }

  /** A printed time reads back as itself, whatever surrounds it, and is accepted exactly when allowed. */
  lemma {:induction false} PrintReadRoundTrip(t: HourMinute)
    requires t.minute < 60
    ensures Strip(Hhmm(t)) == Hhmm(t) && WellFormed(Hhmm(t)) && Value(Hhmm(t)) == t
    ensures Accepted(Hhmm(t)) <==> Allowed(t)
  {
    var h, m := Decimal.Show(t.hour), TwoDigits(t.minute);
    Decimal.RoundTrip(t.hour);
    TwoDigitsRead(t.minute);
    PairReads(h, m);
    assert Hhmm(t) == h + ":" + m;
  }

  /** Printing what was read gives one normal form: reading it again changes nothing. */
  lemma {:induction false} ReadPrintNormalises(s: string)
    requires Accepted(s)
    ensures Accepted(Hhmm(Value(s))) && Value(Hhmm(Value(s))) == Value(s)
  {
    PrintReadRoundTrip(Value(s));
  }
}
