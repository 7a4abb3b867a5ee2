/**
 Times of day and irrigation schedules as each side reads them: the platform matches a pattern,
 the controller parses integers and prints them back.
 */
module Times {
  import opened Text

  // ---- platform: the two patterns of validate.go ----

  predicate IsDigit(c: char) {
    '0' <= c <= '9'
  }

  predicate IsHhmm(s: string) {
    && |s| == 5
    && ((s[0] in "01" && IsDigit(s[1])) || (s[0] == '2' && '0' <= s[1] <= '3'))
    && s[2] == ':'
    && '0' <= s[3] <= '5' && IsDigit(s[4])
  }

  predicate IsSchedule(s: string) {
    && |s| >= 5
    && IsHhmm(s[..5])
    && (|s| == 5 || (s[5] == ',' && IsSchedule(s[6..])))
  }

  function DigitValue(c: char): nat
    requires IsDigit(c)
  {
    (c - '0') as nat
  }

  function MinutesOfDay(s: string): Option<nat> {
    if !IsHhmm(s) then None
    else Some((DigitValue(s[0]) * 10 + DigitValue(s[1])) * 60 + DigitValue(s[3]) * 10 + DigitValue(s[4]))
  }

  // ---- controller: TimeOfDay and Schedule of domain.rs ----

  datatype TimeOfDay = TimeOfDay(hour: nat, minute: nat) {
    predicate Valid() {
      hour <= 23 && minute <= 59
    }

    function Minutes(): nat {
      hour * 60 + minute
    }

    /** The derived order: hour first, then minute. */
    predicate Before(other: TimeOfDay) {
      hour < other.hour || (hour == other.hour && minute < other.minute)
    }
  }

  predicate AllDigits(s: string) {
    forall i :: 0 <= i < |s| ==> IsDigit(s[i])
  }

  function DecimalValue(s: string): nat
    requires AllDigits(s)
  {
    if s == [] then 0 else DecimalValue(s[..|s| - 1]) * 10 + DigitValue(s[|s| - 1])
  }

  /** Rust's `u8::from_str`: one leading '+' is allowed, then at least one digit, value at most 255. */
  function ParseU8(s: string): Option<nat> {
    var digits := if |s| > 0 && s[0] == '+' then s[1..] else s;
    if digits == [] || !AllDigits(digits) || DecimalValue(digits) > 255 then None else Some(DecimalValue(digits))
  }

  function ParseTime(s: string): Option<TimeOfDay> {
    var colon := FirstIndex(s, ':');
    if colon == |s| then None
    else
      var h, m := s[..colon], s[colon + 1..];
      if |h| != 2 || |m| != 2 then None
      else
        match (ParseU8(h), ParseU8(m))
        case (Some(hour), Some(minute)) => if hour > 23 || minute > 59 then None else Some(TimeOfDay(hour, minute))
        case _ => None
  }

  function Digit(n: nat): char
    requires n <= 9
  {
    '0' + n as char
  }

  function PrintTime(t: TimeOfDay): string
    requires t.Valid()
  {
    [Digit(t.hour / 10), Digit(t.hour % 10), ':', Digit(t.minute / 10), Digit(t.minute % 10)]
  }

  function ParseTimes(parts: seq<string>): Option<seq<TimeOfDay>> {
    if parts == [] then Some([])
    else
      match (ParseTime(parts[0]), ParseTimes(parts[1..]))
      case (Some(t), Some(ts)) => Some([t] + ts)
      case _ => None
  }

  function ParseSchedule(s: string): Option<seq<TimeOfDay>> {
    if s == [] then None else ParseTimes(Split(s, ','))
  }

  predicate ValidTimes(ts: seq<TimeOfDay>) {
    forall i :: 0 <= i < |ts| ==> ts[i].Valid()
  }

  function PrintTimes(ts: seq<TimeOfDay>): (parts: seq<string>)
    requires ValidTimes(ts)
    ensures |parts| == |ts|
  {
    if ts == [] then [] else [PrintTime(ts[0])] + PrintTimes(ts[1..])
  }

  function PrintSchedule(ts: seq<TimeOfDay>): string
    requires ts != [] && ValidTimes(ts)
  {
    Join(PrintTimes(ts), ',')
  }

  // ---- agreement ----

  lemma TwoDigits(s: string)
    requires |s| == 2
    ensures IsDigit(s[0]) && IsDigit(s[1]) ==> ParseU8(s) == Some(DigitValue(s[0]) * 10 + DigitValue(s[1]))
    ensures ParseU8(s).Some? && '+' !in s ==> IsDigit(s[0]) && IsDigit(s[1])
  {
    if IsDigit(s[0]) && IsDigit(s[1]) {
      assert s[..1][..0] == [];
      assert DecimalValue(s[..1]) == DigitValue(s[0]);
      assert DecimalValue(s) == DecimalValue(s[..1]) * 10 + DigitValue(s[1]);
    }
    if ParseU8(s).Some? && '+' !in s {
      assert s[0] != '+';
      assert AllDigits(s);
    }
  }

  lemma ColonAtTwo(s: string)
    requires |s| == 5 && s[2] == ':' && s[0] != ':' && s[1] != ':'
    ensures FirstIndex(s, ':') == 2
  {
    FirstIndexOfPrefix(s[..2], ':', s[3..]);
    assert s == s[..2] + [':'] + s[3..];
  }

  lemma HhmmParses(s: string)
    requires IsHhmm(s)
    ensures ParseTime(s) ==
        Some(TimeOfDay(DigitValue(s[0]) * 10 + DigitValue(s[1]), DigitValue(s[3]) * 10 + DigitValue(s[4])))
  {
    ColonAtTwo(s);
    TwoDigits(s[..2]);
    TwoDigits(s[3..]);
  }

  lemma ParsedTimeMatches(s: string)
    requires ParseTime(s).Some? && '+' !in s
    ensures IsHhmm(s)
  {
    var colon := FirstIndex(s, ':');
    var h, m := s[..colon], s[colon + 1..];
    assert |s| == 5 && colon == 2 && s[2] == ':';
    assert h[0] == s[0] && h[1] == s[1] && m[0] == s[3] && m[1] == s[4];
    TwoDigits(h);
    TwoDigits(m);
  }

  lemma HhmmPrints(s: string, t: TimeOfDay)
    requires IsHhmm(s)
    requires t == TimeOfDay(DigitValue(s[0]) * 10 + DigitValue(s[1]), DigitValue(s[3]) * 10 + DigitValue(s[4]))
    ensures t.Valid() && PrintTime(t) == s
  {
    DigitRoundTrip(s[0], s[1]);
    DigitRoundTrip(s[3], s[4]);
  }

  lemma DigitRoundTrip(a: char, b: char)
    requires IsDigit(a) && IsDigit(b)
    ensures var n := DigitValue(a) * 10 + DigitValue(b); n / 10 <= 9 && Digit(n / 10) == a && Digit(n % 10) == b
  {
    var n := DigitValue(a) * 10 + DigitValue(b);
    assert n / 10 == DigitValue(a) && n % 10 == DigitValue(b);
  }

  /**
   Every time the platform's pattern admits is accepted by the controller with the same minutes and
   prints back unchanged; what the controller accepts besides carries a '+' sign.
   */
  lemma HhmmAgreement(s: string)
    ensures IsHhmm(s) <==> ParseTime(s).Some? && '+' !in s
    ensures IsHhmm(s) ==>
              var t := ParseTime(s).value;
              t.Valid() && Some(t.Minutes()) == MinutesOfDay(s) && PrintTime(t) == s
  {
    if IsHhmm(s) {
      HhmmParses(s);
      HhmmPrints(s, ParseTime(s).value);
    }
    if ParseTime(s).Some? && '+' !in s {
      ParsedTimeMatches(s);
    }
  }

  /** The converse of the agreement fails: a signed field is a time to the controller only. */
  lemma SignedTimeIsControllerOnly()
    ensures ParseTime("+6:30") == Some(TimeOfDay(6, 30)) && !IsHhmm("+6:30")
  {
    var s := "+6:30";
    ColonAtTwo(s);
    assert s[..2] == "+6" && s[3..] == "30";
    TwoDigits("30");
    assert "+6"[1..] == "6" && "6"[..0] == [];
    assert DecimalValue("6") == 6;
    assert ParseU8("+6") == Some(6);
  }

  lemma PrintParseTime(t: TimeOfDay)
    requires t.Valid()
    ensures IsHhmm(PrintTime(t)) && ParseTime(PrintTime(t)) == Some(t)
  {
    var s := PrintTime(t);
    ColonAtTwo(s);
    TwoDigits(s[..2]);
    TwoDigits(s[3..]);
  }

  lemma OrderIsMinutes(a: TimeOfDay, b: TimeOfDay)
    requires a.Valid() && b.Valid()
    ensures a.Before(b) <==> a.Minutes() < b.Minutes()
  {
  }

  lemma HhmmHasNoComma(s: string)
    requires IsHhmm(s)
    ensures ',' !in s
  {
  }

  lemma OneTimeSchedule(s: string, t: TimeOfDay)
    requires ',' !in s && s != [] && ParseTime(s) == Some(t) && t.Valid() && PrintTime(t) == s
    ensures ParseSchedule(s) == Some([t]) && PrintSchedule([t]) == s
  {
    assert Split(s, ',') == [s];
    assert ParseTimes([s][1..]) == Some([]);
    assert [t] + [] == [t];
    assert PrintTimes([t]) == [s] + PrintTimes([t][1..]) == [s];
  }

  lemma ConsParses(head: string, rest: string, t: TimeOfDay, ts: seq<TimeOfDay>)
    requires ',' !in head && ParseTime(head) == Some(t) && ParseSchedule(rest) == Some(ts)
    ensures ParseSchedule(head + [','] + rest) == Some([t] + ts)
  {
    var s := head + [','] + rest;
    FirstIndexOfPrefix(head, ',', rest);
    assert s[..|head|] == head && s[|head| + 1..] == rest;
    var parts := [head] + Split(rest, ',');
    assert Split(s, ',') == parts;
    assert parts[1..] == Split(rest, ',');
  }

  lemma ConsPrints(t: TimeOfDay, ts: seq<TimeOfDay>)
    requires t.Valid() && ts != [] && ValidTimes(ts)
    ensures ValidTimes([t] + ts) && PrintSchedule([t] + ts) == PrintTime(t) + [','] + PrintSchedule(ts)
  {
    assert ([t] + ts)[1..] == ts;
    var parts := [PrintTime(t)] + PrintTimes(ts);
    assert PrintTimes([t] + ts) == parts;
    assert parts[1..] == PrintTimes(ts);
  }

  lemma {:induction false} ScheduleParses(s: string)
    requires IsSchedule(s)
    ensures '+' !in s
    ensures ParseSchedule(s).Some?
    ensures var ts := ParseSchedule(s).value; ts != [] && ValidTimes(ts) && PrintSchedule(ts) == s
    decreases |s|
  {
    var head := s[..5];
    HhmmAgreement(head);
    HhmmHasNoComma(head);
    var t := ParseTime(head).value;
    if |s| == 5 {
      assert s == head;
      OneTimeSchedule(s, t);
    } else {
      var rest := s[6..];
      assert s == head + [','] + rest;
      ScheduleParses(rest);
      ConsParses(head, rest, t, ParseSchedule(rest).value);
      ConsPrints(t, ParseSchedule(rest).value);
    }
  }

  lemma {:induction false} ParsedScheduleMatches(s: string)
    requires ParseSchedule(s).Some? && '+' !in s
    ensures IsSchedule(s)
    decreases |s|
  {
    var i := FirstIndex(s, ',');
    var head := s[..i];
    assert forall c :: c in head ==> c in s;
    if i == |s| {
      assert head == s && Split(s, ',') == [s];
      HhmmAgreement(s);
    } else {
      var rest := s[i + 1..];
      assert Split(s, ',')[1..] == Split(rest, ',');
      assert ParseTimes(Split(rest, ',')).Some?;
      HhmmAgreement(head);
      assert rest != [] by {
        assert ParseTime(Split(rest, ',')[0]).Some?;
      }
      ParsedScheduleMatches(rest);
    }
  }

  /** The same agreement for a whole irrigation schedule. */
  lemma ScheduleAgreement(s: string)
    ensures IsSchedule(s) <==> ParseSchedule(s).Some? && '+' !in s
    ensures IsSchedule(s) ==>
              var ts := ParseSchedule(s).value;
              ts != [] && ValidTimes(ts) && PrintSchedule(ts) == s
  {
    if IsSchedule(s) {
      ScheduleParses(s);
    }
    if ParseSchedule(s).Some? && '+' !in s {
      ParsedScheduleMatches(s);
    }
  }

  lemma {:induction false} PrintParseTimes(ts: seq<TimeOfDay>)
    requires ValidTimes(ts)
    ensures ParseTimes(PrintTimes(ts)) == Some(ts)
    ensures forall p :: p in PrintTimes(ts) ==> IsHhmm(p)
  {
    hide PrintTime, ParseTime, IsHhmm, ParseTimes;
    if ts == [] {
      NoTimes();
    } else {
      PrintParseTime(ts[0]);
      PrintParseTimes(ts[1..]);
      OneMoreTime(PrintTime(ts[0]), PrintTimes(ts[1..]), ts[0], ts[1..]);
      assert ts == [ts[0]] + ts[1..];
    }
  }

  lemma NoTimes()
    ensures ParseTimes([]) == Some([])
  {
  }

  lemma OneMoreTime(part: string, parts: seq<string>, t: TimeOfDay, ts: seq<TimeOfDay>)
    requires ParseTime(part) == Some(t) && ParseTimes(parts) == Some(ts)
    ensures ParseTimes([part] + parts) == Some([t] + ts)
  {
    hide ParseTime;
    assert ([part] + parts)[1..] == parts;
  }

  /** Printing a schedule and parsing it gives the schedule back. */
  lemma PrintParseSchedule(ts: seq<TimeOfDay>)
    requires ts != [] && ValidTimes(ts)
    ensures ParseSchedule(PrintSchedule(ts)) == Some(ts)
  {
    PrintParseTimes(ts);
    var parts := PrintTimes(ts);
    forall p | p in parts ensures ',' !in p {
      HhmmHasNoComma(p);
    }
    SplitJoin(parts, ',');
    assert PrintSchedule(ts) != [] by {
      assert parts[0] in parts;
    }
  }
}
