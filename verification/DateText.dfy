/** Printing dates in a format of year, month and day numbers, and reading them back. */
module DateTexts {
  import opened Base
  import opened Calendars

  // ---------- numbers ----------

  function Digit(d: nat): char
    requires d < 10
  {
    "0123456789"[d]
  }

  predicate IsDigit(c: char) {
    '0' <= c <= '9'
  }

  function DigitValue(c: char): nat
    requires IsDigit(c)
  {
    c as int - '0' as int
  }

  function NumberText(n: nat): (s: string)
    ensures s != "" && forall i :: 0 <= i < |s| ==> IsDigit(s[i])
  {
    if n < 10 then [Digit(n)] else NumberText(n / 10) + [Digit(n % 10)]
  }

  /** The value of the digits s starts with, after those that have given n. */
  function Digits(s: string, n: nat): nat {
    if s == "" || !IsDigit(s[0]) then n else Digits(s[1..], 10 * n + DigitValue(s[0]))
  }

  /** parseInt with radix 10, on text without signs or spaces: NaN, here None, if there is no digit at the start. */
  function ParseInt(s: string): Option<nat> {
    if s == "" || !IsDigit(s[0]) then None else Some(Digits(s, 0))
  }

  predicate AllDigits(s: string) {
    forall i :: 0 <= i < |s| ==> IsDigit(s[i])
  }

  lemma {:induction false} DigitsAppend(s: string, c: char, n: nat)
    requires AllDigits(s) && IsDigit(c)
    ensures Digits(s + [c], n) == 10 * Digits(s, n) + DigitValue(c)
    decreases |s|
  {
    if s == "" {
      assert (s + [c])[1..] == "";
    } else {
      assert (s + [c])[1..] == s[1..] + [c];
      DigitsAppend(s[1..], c, 10 * n + DigitValue(s[0]));
    }
  }

  /** What follows the digits does not matter; without a digit at the start there is no number. */
  lemma {:induction false} DigitsRead(s: string, t: string, n: nat)
    requires AllDigits(s) && (t == "" || !IsDigit(t[0]))
    ensures Digits(s + t, n) == Digits(s, n)
    decreases |s|
  {
    if s == "" {
      assert s + t == t;
    } else {
      assert (s + t)[1..] == s[1..] + t;
      DigitsRead(s[1..], t, 10 * n + DigitValue(s[0]));
    }
  }

  lemma NumberRead(s: string, t: string)
    requires AllDigits(s) && (t == "" || !IsDigit(t[0]))
    ensures ParseInt(s + t) == ParseInt(s) && (ParseInt(s + t) == None <==> s == "")
  {
    DigitsRead(s, t, 0);
    assert s == "" ==> s + t == t;
  }

  lemma {:induction false} NumberBack(n: nat)
    ensures ParseInt(NumberText(n)) == Some(n)
  {
    DigitIs(n % 10);
    if n < 10 {
      var s := [Digit(n)];
      assert s[1..] == "" && Digits("", DigitValue(s[0])) == DigitValue(s[0]);
    } else {
      NumberBack(n / 10);
      DigitsAppend(NumberText(n / 10), Digit(n % 10), 0);
    }
  }

  lemma DigitIs(d: nat)
    requires d < 10
    ensures IsDigit(Digit(d)) && DigitValue(Digit(d)) == d
  {
  }

  /** A leading zero does not matter. */
  lemma PaddedBack(n: nat)
    ensures ParseInt("0" + NumberText(n)) == Some(n)
  {
    NumberBack(n);
    assert ("0" + NumberText(n))[1..] == NumberText(n);
  }

  // ---------- formats ----------

  /** The numeric parts of a format: yyyy, m, mm, d, dd. */
  datatype Part = Year | Month(padded: bool) | Day(padded: bool)

  /** parts and the text around them: separators[i] comes before parts[i], the last one at the end. */
  datatype Format = Format(separators: seq<string>, parts: seq<Part>)

  function Pad(padded: bool, n: nat): (s: string)
    ensures s != "" && AllDigits(s)
  {
    if padded && n < 10 then "0" + NumberText(n) else NumberText(n)
  }

  /** The text of one part; years are printed from the year 0 on. */
  function PartText(c: Civil, part: Part): (s: string)
    requires c.Real() && c.month >= 0
    ensures s != "" && AllDigits(s)
  {
    match part
    case Year => NumberText(c.month / 12)
    case Month(padded) => Pad(padded, c.month % 12 + 1)
    case Day(padded) => Pad(padded, c.day)
  }

  function PartValue(c: Civil, part: Part): nat
    requires c.Real() && c.month >= 0
  {
    match part
    case Year => c.month / 12
    case Month(_) => c.month % 12 + 1
    case Day(_) => c.day
  }

  lemma PartBack(c: Civil, part: Part)
    requires c.Real() && c.month >= 0
    ensures ParseInt(PartText(c, part)) == Some(PartValue(c, part))
  {
    var n := PartValue(c, part);
    NumberBack(n);
    PaddedBack(n);
  }

  /** Among texts of digits, the one that is printed for a part is known by its value, by its length of two for mm and dd, and otherwise by having
      no zero in front, unless it is the zero alone. */
  lemma PartPrinted(c: Civil, part: Part, s: string)
    requires c.Real() && c.month >= 0
    ensures s == PartText(c, part) <==>
      && AllDigits(s) && ParseInt(s) == Some(PartValue(c, part))
      && (if part == Month(true) || part == Day(true) then |s| == 2 else |s| == 1 || s[0] != '0')
  {
    hide ParseInt, NumberText, Pad;
    PartBack(c, part);
    LengthBounds(c.month);
    var n := PartValue(c, part);
    if part == Month(true) || part == Day(true) {
      PadLength(n);
      if AllDigits(s) && ParseInt(s) == Some(n) && |s| == 2 {
        SameLength(s, PartText(c, part));
      }
    } else {
      NumberPrinted(n, s);
      Unpadded(n);
    }
  }

  lemma Unpadded(n: nat)
    ensures Pad(false, n) == NumberText(n)
  {
  }

  lemma PadLength(n: nat)
    requires n < 100
    ensures |Pad(true, n)| == 2
  {
    if n >= 10 {
      assert n / 10 < 10 && |NumberText(n / 10)| == 1;
    }
  }

  function PowerOfTen(k: nat): (p: nat)
    ensures p >= 1
  {
    if k == 0 then 1 else 10 * PowerOfTen(k - 1)
  }

  /** The value of k digits after n. */
  lemma {:induction false} DigitsBound(s: string, n: nat)
    requires AllDigits(s)
    ensures n * PowerOfTen(|s|) <= Digits(s, n) < (n + 1) * PowerOfTen(|s|)
    decreases |s|
  {
    if s != "" {
      var p, d := PowerOfTen(|s| - 1), DigitValue(s[0]);
      DigitsBound(s[1..], 10 * n + d);
      assert n * (10 * p) == (10 * n) * p <= (10 * n + d) * p by {
        MoreTimes(10 * n, 10 * n + d, p);
      }
      assert (10 * n + d + 1) * p <= (10 * n + 10) * p == (n + 1) * (10 * p) by {
        MoreTimes(10 * n + d + 1, 10 * n + 10, p);
      }
    }
  }

  lemma MoreTimes(a: nat, b: nat, p: nat)
    requires a <= b
    ensures a * p <= b * p
  {
  }

  /** Digits of the same number and the same value are the same. */
  lemma {:induction false} DigitsOnce(s: string, t: string, m: nat, n: nat)
    requires AllDigits(s) && AllDigits(t) && |s| == |t| && Digits(s, m) == Digits(t, n)
    ensures s == t && m == n
    decreases |s|
  {
    if s != "" {
      DigitsOnce(s[1..], t[1..], 10 * m + DigitValue(s[0]), 10 * n + DigitValue(t[0]));
      assert DigitValue(s[0]) == DigitValue(t[0]);
      assert s == [s[0]] + s[1..] && t == [t[0]] + t[1..];
    }
  }

  lemma SameLength(s: string, t: string)
    requires s != "" && AllDigits(s) && AllDigits(t) && |s| == |t| && ParseInt(s) == ParseInt(t)
    ensures s == t
  {
    DigitsOnce(s, t, 0, 0);
  }

  /** A text of digits without a zero in front has at least the value of a one with as many zeros. */
  lemma NoZero(s: string)
    requires AllDigits(s) && s != "" && s[0] != '0'
    ensures PowerOfTen(|s| - 1) <= Digits(s, 0) < PowerOfTen(|s|)
  {
    var p, d := PowerOfTen(|s| - 1), DigitValue(s[0]);
    DigitsBound(s, 0);
    DigitsBound(s[1..], d);
    MoreTimes(1, d, p);
  }

  lemma {:induction false} PowerGrows(j: nat, k: nat)
    requires j <= k
    ensures PowerOfTen(j) <= PowerOfTen(k)
    decreases k
  {
    if j < k {
      PowerGrows(j, k - 1);
    }
  }

  lemma {:induction false} NumberFirst(n: nat)
    ensures n > 0 ==> NumberText(n)[0] != '0'
    ensures n < 10 ==> |NumberText(n)| == 1
  {
    if n >= 10 {
      NumberFirst(n / 10);
    }
  }

  /** A number is printed without a zero in front, and in no other way. */
  lemma NumberPrinted(n: nat, s: string)
    ensures s == NumberText(n) <==> AllDigits(s) && ParseInt(s) == Some(n) && (|s| == 1 || s[0] != '0')
  {
    var t := NumberText(n);
    NumberBack(n);
    NumberFirst(n);
    if AllDigits(s) && ParseInt(s) == Some(n) && (|s| == 1 || s[0] != '0') {
      LengthOf(s, n);
      LengthOf(t, n);
      SameLength(s, t);
    }
  }

  function Width(n: nat): (k: nat)
    ensures k >= 1 && n < PowerOfTen(k) && (n > 0 ==> PowerOfTen(k - 1) <= n)
  {
    if n < 10 then 1 else 1 + Width(n / 10)
  }

  /** The length of a number's text without zeros in front. */
  lemma LengthOf(s: string, n: nat)
    requires AllDigits(s) && ParseInt(s) == Some(n) && (|s| == 1 || s[0] != '0')
    ensures |s| == Width(n)
  {
    var k := Width(n);
    if s[0] == '0' {
      assert s[1..] == "" && n == 0;
    } else {
      NoZero(s);
      hide Digits, PowerOfTen, Width;
      if |s| < k {
        PowerGrows(|s|, k - 1);
      } else if |s| > k {
        PowerGrows(k, |s| - 1);
      }
    }
  }

  /** What the printed text is: separators and parts in turn. */
  function DateTextFrom(c: Civil, format: Format, i: nat): string
    requires c.Real() && c.month >= 0 && i <= |format.parts| && |format.separators| == |format.parts| + 1
    decreases |format.parts| - i
  {
    format.separators[i] + if i == |format.parts| then "" else PartText(c, format.parts[i]) + DateTextFrom(c, format, i + 1)
  }

  lemma TextStep(c: Civil, format: Format, i: nat, before: string)
    requires c.Real() && c.month >= 0 && i <= |format.parts| && |format.separators| == |format.parts| + 1
    ensures before + DateTextFrom(c, format, i) == if i == |format.parts| then before + format.separators[i]
                                                   else before + format.separators[i] + PartText(c, format.parts[i]) + DateTextFrom(c, format, i + 1)
  {
    hide PartText;
  }

  /** Prints a date; the separators are used up one by one. */
  method FormatDate(date: UtcDate, format: Format) returns (s: string)
    requires date.Valid() && date.Value().month >= 0 && |format.separators| == |format.parts| + 1
    ensures s == DateTextFrom(date.Value(), format, 0)
  {
    hide DateTextFrom, PartText;
    var c := date.Value();
    s := "";
    var seps := format.separators;
    var n := |format.parts|;
    assert s + DateTextFrom(c, format, 0) == DateTextFrom(c, format, 0);
    for i := 0 to n + 1
      invariant seps == format.separators[i..]
      invariant (if i <= n then s + DateTextFrom(c, format, i) else s) == DateTextFrom(c, format, 0)
    {
      TextStep(c, format, i, s);
      if |seps| > 0 {
        s := s + seps[0];
        seps := seps[1..];
      }
      if i < n {
        s := s + PartText(c, format.parts[i]);
      }
    }
  }

  // ---------- reading back ----------

  /** The characters between numbers: those that the pattern for parts of a date leaves out. */
  predicate Punctuation(c: char) {
    ' ' <= c <= '/' || ':' <= c <= '@' || c == '[' || '\U{3400}' <= c <= '\U{9fff}' || c == '-' || c == '`' || '{' <= c <= '~'
    || c == '\t' || c == '\n' || c == '\r'
  }

  /** What is left for the runs: letters and digits, four of the characters between capital and small letters, control characters but for the tab and
      the line ends, and what is beyond ASCII but for the range of CJK ideographs. */
  lemma RunCharacters(c: char)
    ensures !Punctuation(c) <==>
      || 'A' <= c <= 'Z' || 'a' <= c <= 'z' || '0' <= c <= '9' || c in "\\]^_"
      || (c < ' ' && c !in "\t\n\r") || ('~' < c < '\U{3400}') || '\U{9fff}' < c
  {
    assert "\\]^_" == ['\\', ']', '^', '_'] && "\t\n\r" == ['\t', '\n', '\r'];
  }

  lemma DigitsAreNot(c: char)
    requires IsDigit(c)
    ensures !Punctuation(c)
  {
  }

  /** Where the run of characters without punctuation that starts s ends. */
  function RunEnd(s: string): (k: nat)
    ensures k <= |s| && (forall i :: 0 <= i < k ==> !Punctuation(s[i])) && (k < |s| ==> Punctuation(s[k]))
  {
    if s == "" || Punctuation(s[0]) then 0 else 1 + RunEnd(s[1..])
  }

  /** The longest runs of characters without punctuation. */
  function Runs(s: string): seq<string>
    decreases |s|
  {
    if s == "" then []
    else if Punctuation(s[0]) then Runs(s[1..])
    else [s[..RunEnd(s)]] + Runs(s[RunEnd(s)..])
  }

  method MatchRuns(s: string) returns (runs: seq<string>)
    ensures runs == Runs(s)
  {
    runs := [];
    var i := 0;
    assert s[0..] == s;
    while i < |s|
      invariant i <= |s| && runs + Runs(s[i..]) == Runs(s)
    {
      var rest := s[i..];
      if Punctuation(rest[0]) {
        assert rest[1..] == s[i + 1..];
        i := i + 1;
      } else {
        var k := RunEnd(rest);
        assert rest[k..] == s[i + k..];
        assert runs + ([rest[..k]] + Runs(rest[k..])) == runs + [rest[..k]] + Runs(rest[k..]);
        runs := runs + [rest[..k]];
        i := i + k;
      }
    }
  }

  predicate AllPunctuation(s: string) {
    forall i :: 0 <= i < |s| ==> Punctuation(s[i])
  }

  lemma {:induction false} RunsSkip(sep: string, s: string)
    requires AllPunctuation(sep)
    ensures Runs(sep + s) == Runs(s)
    decreases |sep|
  {
    if sep == "" {
      assert sep + s == s;
    } else {
      assert (sep + s)[1..] == sep[1..] + s;
      RunsSkip(sep[1..], s);
    }
  }

  lemma RunsTake(part: string, s: string)
    requires AllDigits(part) && part != "" && (s == "" || Punctuation(s[0]))
    ensures Runs(part + s) == [part] + Runs(s)
  {
    var t := part + s;
    forall i | 0 <= i < |part| ensures t[i] == part[i] && !Punctuation(t[i]) {
      DigitsAreNot(part[i]);
    }
    var k := RunEnd(t);
    assert k == |part| by {
      assert s != "" ==> t[|part|] == s[0];
    }
    assert t[..k] == part && t[k..] == s;
  }

  /** The order in which the parts of a date are set, whatever their order in the text. */
  const SETTERS_ORDER: seq<Part> := [Year, Month(false), Month(true), Day(false), Day(true)]

  /** The date with one part set; a month that is too short for the day takes its last day. */
  function SetPart(c: Civil, part: Part, v: nat): Civil {
    match part
    case Year => MakeDay(12 * v + c.month % 12, c.day)
    case Month(_) =>
      var q := 12 * (c.month / 12) + (v - 1) % 12;
      Civil(q, if c.day <= Length(q) then c.day else Length(q))
    case Day(_) => MakeDay(c.month, v)
  }

  function Apply(c: Civil, parsed: map<Part, Option<nat>>, order: seq<Part>): Civil
    decreases |order|
  {
    if order == [] then c
    else Apply(if order[0] in parsed && parsed[order[0]].Some? then SetPart(c, order[0], parsed[order[0]].value) else c, parsed, order[1..])
  }

  function Values(parts: seq<Part>, runs: seq<string>): map<Part, Option<nat>>
    requires |parts| == |runs|
  {
    if parts == [] then map[]
    else Values(parts[..|parts| - 1], runs[..|runs| - 1])[parts[|parts| - 1] := ParseInt(runs[|runs| - 1])]
  }

  /** The date that a text stands for, on a given day. */
  function DateOf(text: string, format: Format, today: Civil): Civil {
    var runs := Runs(text);
    if |runs| == |format.parts| then Apply(today, Values(format.parts, runs), SETTERS_ORDER) else today
  }

  /** Sets one part. */
  method SetTo(date: UtcDate, part: Part, value: nat)
    requires date.Valid()
    modifies date
    ensures date.Valid() && date.Value() == SetPart(old(date.Value()), part, value)
  {
    hide MakeDay, Length;
    match part
    case Year =>
      date.SetUTCFullYear(value);
    case Day(_) =>
      date.SetUTCDate(value);
    case Month(_) =>
      var v := value - 1;
      while v < 0
        invariant v == value - 1 || (value == 0 && v == 11)
        decreases -v
      {
        v := v + 12;
      }
      WrapMonth(value, v);
      SetMonth(date, v % 12);
  }

  lemma WrapMonth(value: nat, v: int)
    requires v >= 0 && (v == value - 1 || (value == 0 && v == 11))
    ensures v % 12 == (value - 1) % 12
  {
  }

  /** The month is set, and as long as that has led into the next month, the day before is taken. */
  method SetMonth(date: UtcDate, v: nat)
    requires date.Valid() && v < 12
    modifies date
    ensures date.Valid()
    ensures var q, c := 12 * old(date.month / 12) + v, old(date.Value()); date.Value() == Civil(q, if c.day <= Length(q) then c.day else Length(q))
  {
    hide MakeDay, Length;
    ghost var q, day := 12 * (date.month / 12) + v, date.day;
    DayBounds(date.Value());
    LengthBounds(q);
    MonthAt(q, date.month / 12, v);
    date.SetUTCMonth(v);
    Overflow(q, day);
    NextMonth(q);
    while date.GetUTCMonth() != v
      invariant date.Valid() && (date.Value() == Civil(q + 1, date.day) || date.Value() == Civil(q, if day <= Length(q) then day else Length(q)))
      invariant date.month == q + 1 ==> day > Length(q) && 1 <= date.day <= 3
      decreases if date.month == q + 1 then date.day else 0
    {
      DayBefore(q, date.day);
      date.SetUTCDate(date.GetUTCDate() - 1);
    }
  }

  lemma MonthAt(q: int, y: int, v: nat)
    requires v < 12 && q == 12 * y + v
    ensures q / 12 == y && q % 12 == v
  {
  }

  lemma DayBefore(q: int, day: int)
    requires 1 <= day <= 3
    ensures MakeDay(q + 1, day - 1) == if day == 1 then Civil(q, Length(q)) else Civil(q + 1, day - 1)
  {
    LengthBounds(q);
    LengthBounds(q + 1);
    if day == 1 {
      assert MakeDay(q, 0 + Length(q)) == Civil(q, Length(q));
    }
  }

  /** Reads a date: the parts that are found are set one after the other on today's date. */
  method ParseDate(text: string, format: Format, today: UtcDate) returns (date: UtcDate)
    requires today.Valid()
    ensures fresh(date) && date.Valid() && date.Value() == DateOf(text, format, today.Value())
  {
    hide SetPart, ParseInt;
    var parts := MatchRuns(text);
    date := new UtcDate(today.Value());
    if |parts| == |format.parts| {
      var parsed: map<Part, Option<nat>> := map[];
      for i := 0 to |parts|
        invariant parsed == Values(format.parts[..i], parts[..i])
      {
        assert format.parts[..i + 1][..i] == format.parts[..i] && parts[..i + 1][..i] == parts[..i];
        parsed := parsed[format.parts[i] := ParseInt(parts[i])];
      }
      assert format.parts[..|parts|] == format.parts && parts[..|parts|] == parts;
      for i := 0 to |SETTERS_ORDER|
        invariant fresh(date) && date.Valid()
        invariant Apply(date.Value(), parsed, SETTERS_ORDER[i..]) == Apply(today.Value(), parsed, SETTERS_ORDER)
      {
        var part := SETTERS_ORDER[i];
        assert SETTERS_ORDER[i..][1..] == SETTERS_ORDER[i + 1..];
        if part in parsed && parsed[part].Some? {
          var next := new UtcDate(date.Value());
          SetTo(next, part, parsed[part].value);
          date := next;
        }
      }
    }
  }

  // ---------- the round trip ----------

  /** One year, one month and one day, with punctuation around and between them. */
  ghost predicate Punctuated(format: Format) {
    && |format.parts| == 3 && |format.separators| == 4
    && Year in format.parts && (Month(false) in format.parts || Month(true) in format.parts)
    && (Day(false) in format.parts || Day(true) in format.parts)
    && (forall i :: 0 <= i < 4 ==> AllPunctuation(format.separators[i]))
    && format.separators[1] != "" && format.separators[2] != ""
  }

  lemma RunsOfText(c: Civil, format: Format, i: nat)
    requires c.Real() && c.month >= 0 && |format.separators| == |format.parts| + 1 && i <= |format.parts|
    requires forall k :: 0 <= k < |format.separators| ==> AllPunctuation(format.separators[k])
    requires forall k :: 0 < k < |format.parts| ==> format.separators[k] != ""
    ensures |Runs(DateTextFrom(c, format, i))| == |format.parts| - i
    ensures forall k :: i <= k < |format.parts| ==> Runs(DateTextFrom(c, format, i))[k - i] == PartText(c, format.parts[k])
    decreases |format.parts| - i
  {
    hide PartText, Runs;
    var sep := format.separators[i];
    if i == |format.parts| {
      assert DateTextFrom(c, format, i) == sep + "";
      RunsSkip(sep, "");
      NoRuns();
    } else {
      var part, rest := PartText(c, format.parts[i]), DateTextFrom(c, format, i + 1);
      RunsSkip(sep, part + rest);
      assert DateTextFrom(c, format, i) == sep + (part + rest);
      RunsOfText(c, format, i + 1);
      assert rest != "" ==> Punctuation(rest[0]) by {
        if i + 1 < |format.parts| {
          assert rest[0] == format.separators[i + 1][0];
        } else {
          assert rest == format.separators[i + 1] + "";
        }
      }
      RunsTake(part, rest);
    }
  }

  lemma NoRuns()
    ensures Runs("") == []
  {
  }

  /** Each part has been given the value of its text. */
  lemma {:induction false} ValuesOf(parts: seq<Part>, runs: seq<string>, k: nat)
    requires |parts| == |runs| && NoDup(parts) && k < |parts|
    ensures parts[k] in Values(parts, runs) && Values(parts, runs)[parts[k]] == ParseInt(runs[k])
    decreases |parts|
  {
    hide ParseInt;
    if k < |parts| - 1 {
      ValuesOf(parts[..|parts| - 1], runs[..|runs| - 1], k);
    }
  }

  lemma {:induction false} ValuesOnly(parts: seq<Part>, runs: seq<string>, part: Part)
    requires |parts| == |runs| && part in Values(parts, runs)
    ensures part in parts
    decreases |parts|
  {
    hide ParseInt;
    if parts != [] && part != parts[|parts| - 1] {
      ValuesOnly(parts[..|parts| - 1], runs[..|runs| - 1], part);
    }
  }

  /** Setting a year or a day that makes a day which its month does not have leads on into the next month, or for the day 0 back to the end of the
      month before; setting a month does not. */
  lemma PartSet(c: Civil, part: Part, v: nat)
    requires c.Real()
    ensures var d := SetPart(c, part, v);
      && d.Real()
      && (part.Day? ==> DayNumber(d) - DayNumber(c) == v - c.day)
      && (part.Day? && 1 <= v <= Length(c.month) ==> d == Civil(c.month, v))
      && (part.Day? && Length(c.month) < v <= 31 ==> d == Civil(c.month + 1, v - Length(c.month)))
      && (part.Day? && v == 0 ==> d == Civil(c.month - 1, Length(c.month - 1)))
      && (part.Year? ==> d.month / 12 == v)
      && (part.Year? && c.day <= Length(12 * v + c.month % 12) ==> d.day == c.day && d.month % 12 == c.month % 12)
      && (part.Year? && c.day > Length(12 * v + c.month % 12) ==> d.day == 1 && d.month % 12 == 2)
      && (part.Month? && 1 <= v <= 12 ==> d.month / 12 == c.month / 12 && d.month % 12 == v - 1)
      && (part.Month? && 1 <= v <= 12 ==> d.day == (if c.day <= Length(d.month) then c.day else Length(d.month)))
  {
    hide MakeDay, Length, Start;
    LengthBounds(c.month);
    match part
    case Year =>
      YearSet(c, v);
    case Day(_) =>
      DayBeforeFirst(c.month);
      if v > 0 && v <= 31 {
        Overflow(c.month, v);
      }
    case Month(_) =>
      var q := 12 * (c.month / 12) + (v - 1) % 12;
      LengthBounds(q);
      MonthAt(q, c.month / 12, (v - 1) % 12);
  }

  lemma DayBeforeFirst(q: int)
    ensures MakeDay(q, 0) == Civil(q - 1, Length(q - 1))
  {
    hide Length, Start;
    LengthBounds(q - 1);
    assert MakeDay(q - 1, Length(q - 1)) == Civil(q - 1, Length(q - 1));
  }

  /** Between years, only the length of February differs. */
  lemma OnlyFebruary(p: int, q: int, day: int)
    requires p % 12 == q % 12 && Length(q) < day <= Length(p)
    ensures q % 12 == 1 && day == 29 && Length(q) == 28
  {
    hide IsLeapYear;
  }

  lemma YearSet(c: Civil, v: nat)
    requires c.Real()
    ensures var q, d := 12 * v + c.month % 12, SetPart(c, Year, v);
      && d.month / 12 == v && (if c.day <= Length(q) then d.day == c.day && d.month % 12 == c.month % 12 else d.day == 1 && d.month % 12 == 2)
  {
    hide MakeDay, Length, Start;
    var q := 12 * v + c.month % 12;
    DayBounds(c);
    MonthAt(q, v, c.month % 12);
    Overflow(q, c.day);
    if c.day > Length(q) {
      OnlyFebruary(c.month, q, c.day);
      MonthAt(q + 1, v, 2);
    }
  }

  /** Setting year, month and day in this order gives the date, whatever it was before. */
  lemma AllSet(t: Civil, c: Civil, m: Part, d: Part)
    requires t.Real() && c.Real() && c.month >= 0 && m.Month? && d.Day?
    ensures SetPart(SetPart(SetPart(t, Year, c.month / 12), m, c.month % 12 + 1), d, c.day) == c
  {
    hide MakeDay, Length;
    var y, n := c.month / 12, c.month % 12;
    var t1 := SetPart(t, Year, y);
    DayBounds(t);
    Overflow(12 * y + t.month % 12, t.day);
    YearKept(y, t);
    var t2 := SetPart(t1, m, n + 1);
    assert 12 * (t1.month / 12) + n == c.month;
    assert t2.month == c.month;
    DayBounds(c);
    Overflow(c.month, c.day);
  }

  /** Setting the year gives a date in that year. */
  lemma YearKept(y: nat, t: Civil)
    requires t.Real()
    ensures SetPart(t, Year, y).month / 12 == y
  {
    hide MakeDay, Length;
    var q := 12 * y + t.month % 12;
    DayBounds(t);
    Overflow(q, t.day);
    assert q / 12 == y;
    if t.day > Length(q) {
      ShortMonth(q);
    }
  }

  /** Three parts of three kinds. */
  lemma Kinds(format: Format) returns (i: nat, j: nat, k: nat)
    requires Punctuated(format)
    ensures i < 3 && j < 3 && k < 3 && i != j && j != k && i != k && NoDup(format.parts)
    ensures format.parts[i] == Year && format.parts[j].Month? && format.parts[k].Day?
    ensures forall p :: p in format.parts ==> p == format.parts[i] || p == format.parts[j] || p == format.parts[k]
  {
    i :| 0 <= i < 3 && format.parts[i] == Year;
    j :| 0 <= j < 3 && format.parts[j].Month?;
    k :| 0 <= k < 3 && format.parts[k].Day?;
  }

  lemma ApplyThree(t: Civil, parsed: map<Part, Option<nat>>, m: Part, d: Part, y: nat, mv: nat, dv: nat)
    requires m.Month? && d.Day? && parsed.Keys == {Year, m, d} && parsed[Year] == Some(y) && parsed[m] == Some(mv) && parsed[d] == Some(dv)
    ensures Apply(t, parsed, SETTERS_ORDER) == SetPart(SetPart(SetPart(t, Year, y), m, mv), d, dv)
  {
    hide SetPart;
    var o := SETTERS_ORDER;
    assert o[1..] == [Month(false), Month(true), Day(false), Day(true)];
    assert o[1..][1..] == [Month(true), Day(false), Day(true)];
    assert o[1..][1..][1..] == [Day(false), Day(true)];
    assert o[1..][1..][1..][1..] == [Day(true)];
    var c1 := SetPart(t, Year, y);
    var c2 := SetPart(c1, m, mv);
    assert Apply(t, parsed, o) == Apply(c1, parsed, o[1..]);
    assert Apply(c1, parsed, o[1..]) == Apply(c2, parsed, [Day(false), Day(true)]);
    assert [Day(false), Day(true)][1..] == [Day(true)] && [Day(true)][1..] == [];
  }

  /** Reading what has been printed gives the date back, whatever today's date is. */
  lemma DateBack(c: Civil, format: Format, today: Civil)
    requires c.Real() && c.month >= 0 && today.Real() && Punctuated(format)
    ensures DateOf(DateTextFrom(c, format, 0), format, today) == c
  {
    hide Apply, Values, Runs, PartText, DateTextFrom, SetPart, ParseInt;
    var runs := Runs(DateTextFrom(c, format, 0));
    RunsOfText(c, format, 0);
    var i, j, k := Kinds(format);
    var parsed := Values(format.parts, runs);
    forall n: nat | n < 3 ensures format.parts[n] in parsed && parsed[format.parts[n]] == Some(PartValue(c, format.parts[n])) {
      ValuesOf(format.parts, runs, n);
      PartBack(c, format.parts[n]);
    }
    forall p | p in parsed ensures p in {Year, format.parts[j], format.parts[k]} {
      ValuesOnly(format.parts, runs, p);
    }
    assert parsed.Keys == {Year, format.parts[j], format.parts[k]};
    ApplyThree(today, parsed, format.parts[j], format.parts[k], c.month / 12, c.month % 12 + 1, c.day);
    AllSet(today, c, format.parts[j], format.parts[k]);
  }
}
