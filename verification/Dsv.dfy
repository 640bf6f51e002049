/** The parser and printer for delimiter-separated values, and how far they undo each other. */
module Dsvs {
  import opened Base

  const QUOTE := '\"'
  const LF := '\n'
  const CR := '\r'

  // ---------- printing ----------

  predicate Contains(s: string, p: string) {
    |p| <= |s| && (s[..|p|] == p || (s != "" && Contains(s[1..], p)))
  }

  /** Whether the pattern ["d\n], with d for the delimiter, matches somewhere in s. For three delimiters it is not the set
      of the three characters: a closing bracket ends the set early, a backslash escapes the line feed, and a hyphen
      makes it a range from a higher to a lower character, for which there is no pattern. */
  predicate Matches(delimiter: char, s: string)
    requires delimiter != '-'
  {
    if delimiter == ']' then Contains(s, [QUOTE, LF, ']'])
    else if delimiter == '\\' then QUOTE in s || LF in s
    else QUOTE in s || delimiter in s || LF in s
  }

  /** Doubles every quote. */
  function Escape(s: string): string {
    if s == "" then ""
    else if s[0] == QUOTE then [QUOTE, QUOTE] + Escape(s[1..])
    else [s[0]] + Escape(s[1..])
  }

  function FormatValue(delimiter: char, s: string): string
    requires delimiter != '-'
  {
    if Matches(delimiter, s) then [QUOTE] + Escape(s) + [QUOTE] else s
  }

  /** The strings of xs with sep in between. */
  function Join(xs: seq<string>, sep: string): string {
    if xs == [] then "" else if |xs| == 1 then xs[0] else xs[0] + sep + Join(xs[1..], sep)
  }

  function FormatRow(delimiter: char, row: seq<string>): string
    requires delimiter != '-'
  {
    Join(seq(|row|, i requires 0 <= i < |row| => FormatValue(delimiter, row[i])), [delimiter])
  }

  function FormatRows(delimiter: char, rows: seq<seq<string>>): string
    requires delimiter != '-'
  {
    Join(seq(|rows|, i requires 0 <= i < |rows| => FormatRow(delimiter, rows[i])), [LF])
  }

  // ---------- parsing: what is read off a text ----------

  /** Where the quoted text that starts s ends: at a quote that is not doubled, or at the end. */
  function Close(s: string, k: nat): (r: nat)
    requires k <= |s|
    ensures k <= r <= |s|
    decreases |s| - k
  {
    if k == |s| then k
    else if s[k] == QUOTE then (if k + 1 < |s| && s[k + 1] == QUOTE then Close(s, k + 2) else k)
    else Close(s, k + 1)
  }

  /** Undoubles the quotes, from left to right. */
  function Unescape(s: string): string {
    if |s| < 2 then s
    else if s[0] == QUOTE && s[1] == QUOTE then [QUOTE] + Unescape(s[2..])
    else [s[0]] + Unescape(s[1..])
  }

  predicate Ends(delimiter: char, c: char) {
    c == LF || c == CR || c == delimiter
  }

  /** Where unquoted text that starts s ends. */
  function Stop(delimiter: char, s: string, k: nat): (r: nat)
    requires k <= |s|
    ensures k <= r <= |s| && (r < |s| ==> Ends(delimiter, s[r])) && forall i :: k <= i < r ==> !Ends(delimiter, s[i])
    decreases |s| - k
  {
    if k == |s| || Ends(delimiter, s[k]) then k else Stop(delimiter, s, k + 1)
  }

  /** A field read off a text, whether a line ends after it, and the text that is left. */
  datatype Piece = Piece(field: string, eol: bool, rest: string)

  function From(s: string, k: nat): string {
    if k <= |s| then s[k..] else ""
  }

  /** What follows a field whose text ends before position k of s. */
  function Finish(field: string, s: string, k: nat): Piece {
    if k < |s| && s[k] == CR then Piece(field, true, From(s, if k + 1 < |s| && s[k + 1] == LF then k + 2 else k + 1))
    else Piece(field, k < |s| && s[k] == LF, From(s, k + 1))
  }

  function First(delimiter: char, s: string): Piece
    requires s != ""
  {
    if s[0] == QUOTE then
      var k := Close(s[1..], 0);
      Finish(Unescape(s[1..][..k]), s, k + 2)
    else
      var k := Stop(delimiter, s, 0);
      Finish(s[..k], s, k)
  }

  lemma Progress(delimiter: char, s: string)
    requires s != ""
    ensures |First(delimiter, s).rest| < |s|
  {
  }

  /** The first row of s and the text after it. */
  function RowOf(delimiter: char, s: string): (r: (seq<string>, string))
    ensures |r.1| <= |s| && (s != "" ==> |r.1| < |s| && r.0 != [])
    decreases |s|
  {
    if s == "" then ([], "")
    else
      Progress(delimiter, s);
      var p := First(delimiter, s);
      if p.eol then ([p.field], p.rest) else var q := RowOf(delimiter, p.rest); ([p.field] + q.0, q.1)
  }

  function Parse(delimiter: char, s: string): seq<seq<string>>
    decreases |s|
  {
    if s == "" then [] else var q := RowOf(delimiter, s); [q.0] + Parse(delimiter, q.1)
  }

  // ---------- parsing: the code ----------

  datatype Token = Text(value: string) | EOL | EOF

  /** The next token, the cursor after it, and whether a line ends there. */
  method NextToken(delimiter: char, text: string, I0: nat, eol0: bool) returns (t: Token, I: nat, eol: bool)
    ensures I0 >= |text| ==> t == EOF && I == I0
    ensures I0 < |text| && eol0 ==> t == EOL && I == I0 && !eol
    ensures I0 < |text| && !eol0 ==> I > I0 && Piece(if t.Text? then t.value else "", eol, From(text, I)) == First(delimiter, text[I0..]) && t.Text?
  {
    t, I, eol := EOF, I0, eol0;
    if I >= |text| {
      return;
    }
    if eol {
      eol := false;
      t := EOL;
      return;
    }
    var j := I;
    if text[j] == QUOTE {
      t, I, eol := QuotedToken(delimiter, text, j);
    } else {
      t, I, eol := PlainToken(delimiter, text, j);
    }
  }

  method QuotedToken(delimiter: char, text: string, j: nat) returns (t: Token, I: nat, eol: bool)
    requires j < |text| && text[j] == QUOTE
    ensures t.Text? && I > j && Piece(t.value, eol, From(text, I)) == First(delimiter, text[j..])
  {
    hide *;
    var i := j + 1;
    while i < |text|
      invariant j < i <= |text| && Close(text[j + 1..], 0) == Close(text[j + 1..], i - j - 1)
    {
      ClosesAt(text, j, i);
      if text[i] == QUOTE {
        if i + 1 >= |text| || text[i + 1] != QUOTE {
          break;
        }
        i := i + 1;
      }
      i := i + 1;
    }
    ClosesAt(text, j, i);
    QuotedIs(delimiter, text, j, i);
    eol := false;
    I := i + 2;
    if i + 1 < |text| {
      if text[i + 1] == CR {
        eol := true;
        if i + 2 < |text| && text[i + 2] == LF {
          I := I + 1;
        }
      } else if text[i + 1] == LF {
        eol := true;
      }
    }
    t := Text(Unescape(text[j + 1..i]));
  }

  /** Quoted text that reaches position i goes on behind it, or behind a doubled quote, or ends there. */
  lemma ClosesAt(text: string, j: nat, i: nat)
    requires j < i <= |text| && Close(text[j + 1..], 0) == Close(text[j + 1..], i - j - 1)
    ensures Close(text[j + 1..], 0) ==
      if i == |text| || (text[i] == QUOTE && !(i + 1 < |text| && text[i + 1] == QUOTE)) then i - j - 1
      else Close(text[j + 1..], if text[i] == QUOTE then i - j + 1 else i - j)
  {
    var s, m := text[j + 1..], i - j - 1;
    assert i < |text| ==> s[m] == text[i];
    assert i + 1 < |text| ==> s[m + 1] == text[i + 1];
  }

  lemma QuotedIs(delimiter: char, text: string, j: nat, i: nat)
    requires j < i <= |text| && text[j] == QUOTE && Close(text[j + 1..], 0) == i - j - 1
    ensures First(delimiter, text[j..]) ==
      Piece(Unescape(text[j + 1..i]), i + 1 < |text| && (text[i + 1] == LF || text[i + 1] == CR),
        From(text, if i + 1 < |text| && text[i + 1] == CR && i + 2 < |text| && text[i + 2] == LF then i + 3 else i + 2))
  {
    var field := Unescape(text[j + 1..i]);
    assert text[j..][1..] == text[j + 1..] && text[j + 1..][..i - j - 1] == text[j + 1..i];
    assert First(delimiter, text[j..]) == Finish(field, text[j..], i + 1 - j);
    hide Unescape, Close, First;
    if i + 1 < |text| {
      FinishAt(field, text, j, i + 1);
    }
  }

  lemma FromShift(text: string, j: nat, k: nat)
    requires j <= |text|
    ensures From(text[j..], k) == From(text, j + k)
  {
    if j + k <= |text| {
      assert text[j..][k..] == text[j + k..];
    }
  }

  method PlainToken(delimiter: char, text: string, j: nat) returns (t: Token, I: nat, eol: bool)
    requires j < |text| && text[j] != QUOTE
    ensures t.Text? && I > j && Piece(t.value, eol, From(text, I)) == First(delimiter, text[j..])
  {
    hide First, Stop, From;
    I, eol := j, false;
    while I < |text|
      invariant j <= I <= |text| && !eol && Stop(delimiter, text[j..], 0) == Stop(delimiter, text[j..], I - j)
    {
      var c, k := text[I], 1;
      StopsAt(delimiter, text, j, I);
      I := I + 1;
      if Ends(delimiter, c) {
        if c == LF {
          eol := true;
        } else if c == CR {
          eol := true;
          if I < |text| && text[I] == LF {
            I := I + 1;
            k := k + 1;
          }
        }
        return Text(text[j..I - k]), I, eol;
      }
    }
    StopsNever(delimiter, text, j);
    t := Text(text[j..]);
  }

  /** Unquoted text that reaches position i goes on behind it or ends there. */
  lemma StopsAt(delimiter: char, text: string, j: nat, i: nat)
    requires j <= i < |text| && text[j] != QUOTE && Stop(delimiter, text[j..], 0) == Stop(delimiter, text[j..], i - j)
    ensures var c := text[i];
      if Ends(delimiter, c) then
        First(delimiter, text[j..]) == Piece(text[j..i], c == LF || c == CR, From(text, if c == CR && i + 1 < |text| && text[i + 1] == LF then i + 2 else i + 1))
      else Stop(delimiter, text[j..], 0) == Stop(delimiter, text[j..], i + 1 - j)
  {
    hide *;
    var s, m := text[j..], i - j;
    StopHere(delimiter, s, m);
    Suffix(text, j, i);
    if Ends(delimiter, text[i]) {
      FirstIs(delimiter, s);
      FinishAt(text[j..i], text, j, i);
    }
  }

  lemma Suffix(text: string, j: nat, i: nat)
    requires j <= i < |text|
    ensures var s, m := text[j..], i - j; |s| == |text| - j && s[m] == text[i] && s[0] == text[j] && s[..m] == text[j..i]
    ensures i + 1 < |text| ==> text[j..][i - j + 1] == text[i + 1]
  {
  }

  lemma StopHere(delimiter: char, s: string, m: nat)
    requires m < |s| && Stop(delimiter, s, 0) == Stop(delimiter, s, m)
    ensures Stop(delimiter, s, 0) == if Ends(delimiter, s[m]) then m else Stop(delimiter, s, m + 1)
  {
  }

  lemma FirstIs(delimiter: char, s: string)
    requires s != "" && s[0] != QUOTE
    ensures First(delimiter, s) == Finish(s[..Stop(delimiter, s, 0)], s, Stop(delimiter, s, 0))
  {
    hide Stop, Finish;
  }

  lemma FinishAt(field: string, text: string, j: nat, i: nat)
    requires j <= i < |text|
    ensures var c := text[i];
      Finish(field, text[j..], i - j) == Piece(field, c == LF || c == CR,
        From(text, if c == CR && i + 1 < |text| && text[i + 1] == LF then i + 2 else i + 1))
  {
    Suffix(text, j, i);
    FromShift(text, j, i - j + 1);
    FromShift(text, j, i - j + 2);
    hide From;
  }

  lemma StopsNever(delimiter: char, text: string, j: nat)
    requires j < |text| && text[j] != QUOTE && Stop(delimiter, text[j..], 0) == Stop(delimiter, text[j..], |text| - j)
    ensures First(delimiter, text[j..]) == Piece(text[j..], false, From(text, |text|))
  {
    var s := text[j..];
    assert s[..|s|] == s && s[0] == text[j];
  }

  /** t has been read off at the start of `here`. */
  ghost predicate Reads(delimiter: char, text: string, here: string, t: Token, I: nat, eol: bool) {
    t.Text? ==> here != "" && Piece(t.value, eol, From(text, I)) == First(delimiter, here)
  }

  /** One field further in a row. */
  lemma RowStep(delimiter: char, text: string, start: string, here: string, a: seq<string>, field: string, eol: bool, I: nat)
    requires here != "" && Piece(field, eol, From(text, I)) == First(delimiter, here)
    requires RowOf(delimiter, start) == (a + RowOf(delimiter, here).0, RowOf(delimiter, here).1)
    ensures var next := From(text, I);
        RowOf(delimiter, start) == if eol || I >= |text| then (a + [field], next)
                                   else (a + [field] + RowOf(delimiter, next).0, RowOf(delimiter, next).1)
  {
    hide First;
    Progress(delimiter, here);
    var next := From(text, I);
    assert I >= |text| ==> next == "";
    assert a + ([field] + RowOf(delimiter, next).0) == a + [field] + RowOf(delimiter, next).0;
    assert a + [field] + [] == a + [field];
  }

  /** The rows of a text. */
  method ParseRows(delimiter: char, text: string) returns (rows: seq<seq<string>>)
    ensures rows == Parse(delimiter, text)
  {
    hide First, RowOf;
    rows := [];
    var t, I: nat, eol := NextToken(delimiter, text, 0, false);
    ghost var here := text;
    assert text[0..] == text;
    while t != EOF
      invariant (t.Text? || t == EOF) && Reads(delimiter, text, here, t, I, eol)
      invariant Parse(delimiter, text) == if t == EOF then rows else rows + Parse(delimiter, here)
      decreases if t.Text? then |here| + 1 else 0
    {
      ghost var start := here;
      var a: seq<string> := [];
      assert a + RowOf(delimiter, here).0 == RowOf(delimiter, here).0;
      while t != EOL && t != EOF
        invariant Reads(delimiter, text, here, t, I, eol) && |here| <= |start|
        invariant t.Text? ==> RowOf(delimiter, start) == (a + RowOf(delimiter, here).0, RowOf(delimiter, here).1)
        invariant !t.Text? ==> RowOf(delimiter, start) == (a, From(text, I)) && (if t == EOL then I < |text| && !eol else I >= |text|)
        decreases if t.Text? then |here| + 1 else 0
      {
        Progress(delimiter, here);
        RowStep(delimiter, text, start, here, a, t.value, eol, I);
        a := a + [t.value];
        here := From(text, I);
        t, I, eol := NextToken(delimiter, text, I, eol);
      }
      rows := rows + [a];
      here := From(text, I);
      t, I, eol := NextToken(delimiter, text, I, eol);
    }
  }

  // ---------- parsing undoes printing ----------

  /** A delimiter for which the printer's pattern is the set of the quote, the delimiter and the line feed, and which the parser does not
      confuse with a quote or the end of a line. */
  predicate Ordinary(d: char) {
    d != QUOTE && d != LF && d != CR && d != ']' && d != '\\' && d != '-'
  }

  /** s is printed in quotes, or has no carriage return that would end a line. */
  predicate Safe(d: char, s: string)
    requires d != '-'
  {
    Matches(d, s) || CR !in s
  }

  /** The rows that are read back as they were: no row is empty, all fields are safe, and the very last one is not empty. */
  predicate Good(d: char, rows: seq<seq<string>>)
    requires d != '-'
  {
    && (forall i :: 0 <= i < |rows| ==> rows[i] != [] && forall j :: 0 <= j < |rows[i]| ==> Safe(d, rows[i][j]))
    && (rows != [] ==> Last(rows[|rows| - 1]) != "")
  }

  function Last(row: seq<string>): string {
    if row == [] then "" else row[|row| - 1]
  }

  lemma {:induction false} UnescapeEscape(s: string)
    ensures Unescape(Escape(s)) == s
  {
    if s != "" {
      UnescapeEscape(s[1..]);
      if s[0] == QUOTE {
        assert ([QUOTE, QUOTE] + Escape(s[1..]))[2..] == Escape(s[1..]);
      } else {
        assert ([s[0]] + Escape(s[1..]))[1..] == Escape(s[1..]);
        EscapeEmpty(s[1..]);
      }
    }
  }

  lemma EscapeEmpty(s: string)
    ensures Escape(s) == "" <==> s == ""
  {
  }

  /** The closing quote is found. */
  lemma {:induction false} CloseEscape(x: string, s: string, tail: string)
    requires tail == "" || tail[0] != QUOTE
    ensures Close(x + Escape(s) + [QUOTE] + tail, |x|) == |x| + |Escape(s)|
    decreases |s|
  {
    var t := x + Escape(s) + [QUOTE] + tail;
    if s == "" {
      assert t[|x|] == QUOTE && t[|x| + 1..] == tail;
    } else if s[0] == QUOTE {
      assert t == (x + [QUOTE, QUOTE]) + Escape(s[1..]) + [QUOTE] + tail;
      CloseEscape(x + [QUOTE, QUOTE], s[1..], tail);
      assert t[|x|] == QUOTE && t[|x| + 1] == QUOTE;
    } else {
      assert t == (x + [s[0]]) + Escape(s[1..]) + [QUOTE] + tail;
      CloseEscape(x + [s[0]], s[1..], tail);
      assert t[|x|] == s[0];
    }
  }

  /** Nothing, or something after a delimiter or a line feed. */
  predicate Tail(d: char, tail: string) {
    tail == "" || tail[0] == d || tail[0] == LF
  }

  function After(d: char, f: string, tail: string): Piece {
    if tail == "" then Piece(f, false, "") else Piece(f, tail[0] == LF, tail[1..])
  }

  lemma QuotedAt(d: char, x: string, tail: string, t: string)
    requires Ordinary(d) && Tail(d, tail) && t == [QUOTE] + x + [QUOTE] + tail && Close(t[1..], 0) == |x|
    ensures First(d, t) == After(d, Unescape(x), tail)
  {
    hide Close, Unescape, Stop;
    var k := |x|;
    assert t[1..][..k] == x;
    assert t[k + 2..] == tail;
    if tail != "" {
      assert t[k + 2] == tail[0] && t[k + 3..] == tail[1..];
    } else {
      assert From(t, k + 3) == "";
    }
  }

  lemma FirstQuoted(d: char, f: string, tail: string)
    requires Ordinary(d) && Tail(d, tail)
    ensures First(d, [QUOTE] + Escape(f) + [QUOTE] + tail) == After(d, f, tail)
  {
    hide *;
    var t := [QUOTE] + Escape(f) + [QUOTE] + tail;
    TailQuote(d, tail);
    CloseEscape("", f, tail);
    UnescapeEscape(f);
    assert t[1..] == "" + Escape(f) + [QUOTE] + tail;
    QuotedAt(d, Escape(f), tail, t);
  }

  lemma TailQuote(d: char, tail: string)
    requires Ordinary(d) && Tail(d, tail)
    ensures tail == "" || tail[0] != QUOTE
  {
  }

  lemma FirstPlain(d: char, f: string, tail: string)
    requires Ordinary(d) && Tail(d, tail) && f + tail != "" && (forall i :: 0 <= i < |f| ==> !Ends(d, f[i])) && QUOTE !in f
    ensures First(d, f + tail) == After(d, f, tail)
  {
    var t := f + tail;
    assert forall i :: 0 <= i < |f| ==> t[i] == f[i];
    assert t[0] != QUOTE by {
      assert f != "" ==> t[0] == f[0] && f[0] in f;
      assert f == "" ==> t == tail;
    }
    assert tail != "" ==> t[|f|] == tail[0] && t[|f| + 1..] == tail[1..];
    assert Stop(d, t, 0) == |f|;
    assert t[..|f|] == f;
    if tail == "" {
      assert From(t, |f| + 1) == "";
    }
  }

  lemma FirstField(d: char, f: string, tail: string)
    requires Ordinary(d) && Tail(d, tail) && Safe(d, f) && FormatValue(d, f) + tail != ""
    ensures First(d, FormatValue(d, f) + tail) == After(d, f, tail)
  {
    if Matches(d, f) {
      FirstQuoted(d, f, tail);
    } else {
      FirstPlain(d, f, tail);
    }
  }

  lemma FormatRowStep(d: char, row: seq<string>)
    requires d != '-' && row != []
    ensures FormatRow(d, row) == if |row| == 1 then FormatValue(d, row[0]) else FormatValue(d, row[0]) + [d] + FormatRow(d, row[1..])
  {
    hide FormatValue;
    var xs := seq(|row|, i requires 0 <= i < |row| => FormatValue(d, row[i]));
    var ys := seq(|row| - 1, i requires 0 <= i < |row| - 1 => FormatValue(d, row[1..][i]));
    assert xs[1..] == ys;
  }

  lemma FormatRowsStep(d: char, rows: seq<seq<string>>)
    requires d != '-' && rows != []
    ensures FormatRows(d, rows) == if |rows| == 1 then FormatRow(d, rows[0]) else FormatRow(d, rows[0]) + [LF] + FormatRows(d, rows[1..])
  {
    hide FormatRow;
    var xs := seq(|rows|, i requires 0 <= i < |rows| => FormatRow(d, rows[i]));
    var ys := seq(|rows| - 1, i requires 0 <= i < |rows| - 1 => FormatRow(d, rows[1..][i]));
    assert xs[1..] == ys;
  }

  /** A row is read back, up to the text after it. */
  lemma {:induction false} RowBack(d: char, row: seq<string>, tail: string)
    requires Ordinary(d) && row != [] && (forall j :: 0 <= j < |row| ==> Safe(d, row[j]))
    requires tail == "" || tail[0] == LF || tail == [d]
    requires tail == "" ==> Last(row) != ""
    ensures FormatRow(d, row) + tail != ""
    ensures RowOf(d, FormatRow(d, row) + tail) == (row, if tail == "" then "" else tail[1..])
    decreases |row|
  {
    hide First, FormatRow;
    var f, t := row[0], FormatRow(d, row) + tail;
    FormatRowStep(d, row);
    ValueEmpty(d, f);
    if |row| == 1 {
      FirstField(d, f, tail);
      assert row == [f] && [f] + [] == [f];
      hide FormatValue;
      assert RowOf(d, "") == ([], "");
    } else {
      var rest := FormatRow(d, row[1..]) + tail;
      assert t == FormatValue(d, f) + ([d] + rest);
      FirstField(d, f, [d] + rest);
      assert ([d] + rest)[1..] == rest;
      hide FormatValue;
      RowBack(d, row[1..], tail);
      assert [f] + row[1..] == row;
    }
  }

  lemma ValueEmpty(d: char, f: string)
    requires d != '-'
    ensures FormatValue(d, f) == "" ==> f == ""
    ensures f == "" ==> FormatValue(d, f) == "" && Safe(d, f)
  {
  }

  lemma {:induction false} RowsBack(d: char, rows: seq<seq<string>>)
    requires Ordinary(d) && Good(d, rows)
    ensures Parse(d, FormatRows(d, rows)) == rows
    decreases |rows|
  {
    hide FormatRow, FormatRows, RowOf, Safe, Parse;
    if rows == [] {
      NoRows(d);
    } else {
      FormatRowsStep(d, rows);
      var tail := if |rows| == 1 then "" else [LF] + FormatRows(d, rows[1..]);
      assert FormatRows(d, rows) == FormatRow(d, rows[0]) + tail;
      RowBack(d, rows[0], tail);
      ParseStep(d, FormatRows(d, rows));
      if |rows| > 1 {
        assert tail[1..] == FormatRows(d, rows[1..]);
        RowsBack(d, rows[1..]);
        assert [rows[0]] + rows[1..] == rows;
      } else {
        ParseStep(d, "");
        assert [rows[0]] + [] == rows;
      }
    }
  }

  lemma ParseStep(d: char, s: string)
    ensures Parse(d, s) == if s == "" then [] else [RowOf(d, s).0] + Parse(d, RowOf(d, s).1)
  {
    hide RowOf;
  }

  lemma NoRows(d: char)
    requires d != '-'
    ensures FormatRows(d, []) == "" && Parse(d, "") == []
  {
  }

  // ---------- what is printed ----------

  predicate StandsAt(s: string, p: string, i: nat) {
    i + |p| <= |s| && s[i..i + |p|] == p
  }

  /** A text contains a pattern if that stands somewhere in it. */
  lemma {:induction false} ContainsAt(s: string, p: string)
    ensures Contains(s, p) <==> exists i: nat :: StandsAt(s, p, i)
  {
    hide StandsAt;
    StandsFirst(s, p);
    if s != "" {
      ContainsAt(s[1..], p);
      forall i: nat ensures StandsAt(s[1..], p, i) <==> StandsAt(s, p, i + 1) {
        StandsLater(s, p, i);
      }
      if i: nat :| StandsAt(s, p, i) && i > 0 {
        assert StandsAt(s[1..], p, i - 1);
      }
    } else if i: nat :| StandsAt(s, p, i) {
      NoRoom(p, i);
    }
  }

  lemma StandsFirst(s: string, p: string)
    ensures StandsAt(s, p, 0) <==> |p| <= |s| && s[..|p|] == p
  {
  }

  lemma StandsLater(s: string, p: string, i: nat)
    requires s != ""
    ensures StandsAt(s[1..], p, i) <==> StandsAt(s, p, i + 1)
  {
    if i + |p| + 1 <= |s| {
      assert s[1..][i..i + |p|] == s[i + 1..i + 1 + |p|];
    }
  }

  lemma NoRoom(p: string, i: nat)
    requires StandsAt("", p, i)
    ensures i == 0
  {
  }

  lemma {:induction false} EscapeLength(s: string)
    ensures |Escape(s)| == |s| + multiset(s)[QUOTE]
  {
    if s != "" {
      EscapeLength(s[1..]);
      assert s == [s[0]] + s[1..];
    }
  }

  /** A field is printed as it is exactly if the printer's pattern is not in it: for an ordinary delimiter, if it has no quote, no delimiter and no
      line feed; for a closing bracket, if nowhere a quote, a line feed and a bracket follow each other; for a backslash, if it has no quote and
      no line feed. All other fields are printed in quotes, with each of their own quotes doubled. */
  lemma FieldAsIs(d: char, s: string)
    requires d != '-'
    ensures FormatValue(d, s) == s <==>
      if d == ']' then forall i :: 0 <= i <= |s| - 3 ==> !(s[i] == QUOTE && s[i + 1] == LF && s[i + 2] == ']')
      else if d == '\\' then forall i :: 0 <= i < |s| ==> s[i] != QUOTE && s[i] != LF
      else forall i :: 0 <= i < |s| ==> s[i] != QUOTE && s[i] != LF && s[i] != d
    ensures FormatValue(d, s) != s ==>
      var t := FormatValue(d, s);
      |t| == |s| + multiset(s)[QUOTE] + 2 && t[0] == QUOTE && t[|t| - 1] == QUOTE && Unescape(t[1..|t| - 1]) == s
  {
    hide *;
    MatchesMeans(d, s);
    FormatQuoted(d, s);
  }

  lemma MatchesMeans(d: char, s: string)
    requires d != '-'
    ensures !Matches(d, s) <==>
      if d == ']' then forall i :: 0 <= i <= |s| - 3 ==> !(s[i] == QUOTE && s[i + 1] == LF && s[i + 2] == ']')
      else if d == '\\' then forall i :: 0 <= i < |s| ==> s[i] != QUOTE && s[i] != LF
      else forall i :: 0 <= i < |s| ==> s[i] != QUOTE && s[i] != LF && s[i] != d
  {
    if d == ']' {
      hide Contains, StandsAt;
      ContainsAt(s, [QUOTE, LF, ']']);
      if i: nat :| StandsAt(s, [QUOTE, LF, ']'], i) {
        ThreeStand(s, i);
      } else {
        forall i: nat ensures !(i <= |s| - 3 && s[i] == QUOTE && s[i + 1] == LF && s[i + 2] == ']') {
          ThreeStand(s, i);
        }
      }
    }
  }

  lemma ThreeStand(s: string, i: nat)
    ensures StandsAt(s, [QUOTE, LF, ']'], i) <==> i <= |s| - 3 && s[i] == QUOTE && s[i + 1] == LF && s[i + 2] == ']'
  {
    if i + 3 <= |s| {
      assert s[i..i + 3] == [s[i], s[i + 1], s[i + 2]];
    }
  }

  lemma FormatQuoted(d: char, s: string)
    requires d != '-'
    ensures FormatValue(d, s) == s <==> !Matches(d, s)
    ensures FormatValue(d, s) != s ==>
      var t := FormatValue(d, s);
      |t| == |s| + multiset(s)[QUOTE] + 2 && t[0] == QUOTE && t[|t| - 1] == QUOTE && Unescape(t[1..|t| - 1]) == s
  {
    EscapeLength(s);
    UnescapeEscape(s);
    hide Escape, Unescape, Matches;
    if Matches(d, s) {
      var t := FormatValue(d, s);
      assert t[1..|t| - 1] == Escape(s);
    }
  }

  /** Texts joined in two parts. */
  lemma {:induction false} JoinTwo(xs: seq<string>, ys: seq<string>, sep: string)
    requires xs != [] && ys != []
    ensures Join(xs + ys, sep) == Join(xs, sep) + sep + Join(ys, sep)
  {
    if |xs| == 1 {
      assert (xs + ys)[1..] == ys;
    } else {
      JoinTwo(xs[1..], ys, sep);
      assert (xs + ys)[1..] == xs[1..] + ys;
    }
  }

  /** Rows that need no quotes are printed as they are: fields with the delimiter in between, rows with line feeds in between. */
  lemma RowsAsAre(d: char, rows: seq<seq<string>>)
    requires Ordinary(d)
    requires forall i, j, k :: 0 <= i < |rows| && 0 <= j < |rows[i]| && 0 <= k < |rows[i][j]| ==> rows[i][j][k] !in {QUOTE, LF, d}
    ensures FormatRows(d, rows) == Join(seq(|rows|, i requires 0 <= i < |rows| => Join(rows[i], [d])), [LF])
  {
    hide Join, FormatValue;
    var lines := seq(|rows|, i requires 0 <= i < |rows| => FormatRow(d, rows[i]));
    forall i | 0 <= i < |rows| ensures lines[i] == Join(rows[i], [d]) {
      forall j | 0 <= j < |rows[i]| ensures FormatValue(d, rows[i][j]) == rows[i][j] {
        FieldAsIs(d, rows[i][j]);
      }
      assert seq(|rows[i]|, j requires 0 <= j < |rows[i]| => FormatValue(d, rows[i][j])) == rows[i];
    }
    assert lines == seq(|rows|, i requires 0 <= i < |rows| => Join(rows[i], [d]));
  }

  // ---------- what is not read back ----------

  /** No row that is read off a text is empty. */
  lemma {:induction false} ParsedNotEmpty(d: char, s: string)
    ensures forall i :: 0 <= i < |Parse(d, s)| ==> Parse(d, s)[i] != []
    decreases |s|
  {
    if s != "" {
      ParsedNotEmpty(d, RowOf(d, s).1);
    }
  }

  /** If the very last field is empty it is lost, and with it its row if that has no other. */
  lemma {:induction false} LastLost(d: char, rows: seq<seq<string>>)
    requires Ordinary(d) && rows != [] && Last(rows[|rows| - 1]) == ""
    requires forall i :: 0 <= i < |rows| ==> rows[i] != [] && forall j :: 0 <= j < |rows[i]| ==> Safe(d, rows[i][j])
    ensures var last := rows[|rows| - 1]; var shorter := last[..|last| - 1];
        Parse(d, FormatRows(d, rows)) == rows[..|rows| - 1] + (if shorter == [] then [] else [shorter])
    decreases |rows|
  {
    hide FormatRow, FormatRows, RowOf, Safe, First;
    FormatRowsStep(d, rows);
    if |rows| == 1 {
      var row := rows[0];
      var shorter := row[..|row| - 1];
      LastField(d, row);
      assert rows[..0] == [] && [] + [shorter] == [shorter];
      if shorter != [] {
        RowBack(d, shorter, [d]);
        assert Parse(d, "") == [];
      }
    } else {
      var tail := [LF] + FormatRows(d, rows[1..]);
      assert FormatRows(d, rows) == FormatRow(d, rows[0]) + tail;
      RowBack(d, rows[0], tail);
      assert tail[1..] == FormatRows(d, rows[1..]);
      LastLost(d, rows[1..]);
      assert rows[1..][|rows| - 2] == rows[|rows| - 1];
      assert [rows[0]] + rows[1..][..|rows| - 2] == rows[..|rows| - 1];
      Attach([rows[0]], rows[1..][..|rows| - 2], var last := rows[|rows| - 1]; if |last| == 1 then [] else [last[..|last| - 1]]);
    }
  }

  lemma Attach<T>(a: seq<T>, b: seq<T>, c: seq<T>)
    ensures a + (b + c) == (a + b) + c
  {
  }

  /** A row whose last field is empty ends in a delimiter, or is empty. */
  lemma {:induction false} LastField(d: char, row: seq<string>)
    requires Ordinary(d) && row != [] && Last(row) == ""
    ensures FormatRow(d, row) == if |row| == 1 then "" else FormatRow(d, row[..|row| - 1]) + [d]
    decreases |row|
  {
    hide FormatRow, FormatValue;
    FormatRowStep(d, row);
    ValueEmpty(d, "");
    if |row| > 1 {
      var shorter := row[..|row| - 1];
      LastField(d, row[1..]);
      FormatRowStep(d, shorter);
      assert shorter[1..] == row[1..][..|row| - 2];
    }
  }

  /** All fields read off s are safe. */
  ghost predicate SafeText(d: char, s: string)
    requires d != '-'
    decreases |s|
  {
    s == "" || (Safe(d, First(d, s).field) && (Progress(d, s); SafeText(d, First(d, s).rest)))
  }

  lemma {:induction false} SafeRow(d: char, s: string)
    requires d != '-' && SafeText(d, s)
    ensures SafeText(d, RowOf(d, s).1) && forall j :: 0 <= j < |RowOf(d, s).0| ==> Safe(d, RowOf(d, s).0[j])
    decreases |s|
  {
    hide First, Safe;
    if s != "" {
      Progress(d, s);
      if !First(d, s).eol {
        SafeRow(d, First(d, s).rest);
      }
    }
  }

  lemma {:induction false} SafeRows(d: char, s: string)
    requires d != '-' && SafeText(d, s)
    ensures forall i :: 0 <= i < |Parse(d, s)| ==> forall j :: 0 <= j < |Parse(d, s)[i]| ==> Safe(d, Parse(d, s)[i][j])
    decreases |s|
  {
    hide Safe, RowOf;
    if s != "" {
      SafeRow(d, s);
      SafeRows(d, RowOf(d, s).1);
    }
  }

  /** What follows a field: the other fields of its row, and the other rows. */
  function RestText(d: char, fields: seq<string>, rows: seq<seq<string>>): string
    requires d != '-'
  {
    if fields != [] then [d] + FormatValue(d, fields[0]) + RestText(d, fields[1..], rows)
    else if rows != [] then [LF] + FormatRows(d, rows)
    else ""
  }

  lemma RestTail(d: char, fields: seq<string>, rows: seq<seq<string>>)
    requires d != '-'
    ensures Tail(d, RestText(d, fields, rows))
  {
  }

  /** A text of rows starts with its first field, unless the first row is empty. */
  lemma {:induction false} RowsText(d: char, rows: seq<seq<string>>)
    requires d != '-' && rows != []
    ensures FormatRows(d, rows) == if rows[0] == [] then RestText(d, [], rows[1..])
                                   else FormatValue(d, rows[0][0]) + RestText(d, rows[0][1..], rows[1..])
  {
    hide FormatRow, FormatRows, FormatValue;
    FormatRowsStep(d, rows);
    var tail := if |rows| == 1 then "" else [LF] + FormatRows(d, rows[1..]);
    assert RestText(d, [], rows[1..]) == tail;
    if rows[0] == [] {
      NoFields(d);
    } else {
      RowText(d, rows[0], rows[1..]);
    }
  }

  lemma NoFields(d: char)
    requires d != '-'
    ensures FormatRow(d, []) == ""
  {
  }

  lemma {:induction false} RowText(d: char, row: seq<string>, rows: seq<seq<string>>)
    requires d != '-' && row != []
    ensures FormatRow(d, row) + RestText(d, [], rows) == FormatValue(d, row[0]) + RestText(d, row[1..], rows)
    decreases |row|
  {
    hide *;
    FormatRowStep(d, row);
    if |row| > 1 {
      RowText(d, row[1..], rows);
      RestStep(d, row[1..], rows);
      Regroup(FormatValue(d, row[0]), [d], FormatRow(d, row[1..]), RestText(d, [], rows));
      Regroup([], [d], FormatValue(d, row[1..][0]), RestText(d, row[1..][1..], rows));
    } else {
      assert row[1..] == [];
    }
  }

  lemma RestStep(d: char, fields: seq<string>, rows: seq<seq<string>>)
    requires d != '-' && fields != []
    ensures RestText(d, fields, rows) == [d] + FormatValue(d, fields[0]) + RestText(d, fields[1..], rows)
  {
    hide FormatRow, FormatRows, FormatValue;
  }

  lemma Regroup(p: string, q: string, r: string, s: string)
    ensures p + q + r + s == p + q + (r + s) && [] + q + r + s == q + r + s && [] + q + (r + s) == q + (r + s)
    ensures p + (q + r) + s == p + (q + (r + s)) && p + (q + r + s) == p + q + (r + s)
  {
  }

  /** The number of fields and rows still to come. */
  ghost function Left(fields: seq<string>, rows: seq<seq<string>>): nat
    decreases |rows|
  {
    |fields| + if rows == [] then 0 else 1 + Left(rows[0], rows[1..])
  }

  /** A carriage return in unquoted text ends a line, and the text goes on after it. */
  lemma FirstCut(d: char, p: string, k: nat, rest: string)
    requires Ordinary(d) && k < |p| && p[k] == CR && QUOTE !in p && (forall i :: 0 <= i < k ==> !Ends(d, p[i])) && LF !in p
    ensures First(d, p + rest) == Piece(p[..k], true, if k + 1 == |p| && rest != "" && rest[0] == LF then rest[1..] else p[k + 1..] + rest)
  {
    var t := p + rest;
    assert forall i :: 0 <= i < |p| ==> t[i] == p[i];
    assert t[0] != QUOTE by { assert t[0] == p[0] && p[0] in p; }
    assert Stop(d, t, 0) == k;
    assert t[..k] == p[..k];
    if k + 1 < |p| {
      assert t[k + 1] == p[k + 1] && p[k + 1] in p;
      assert t[k + 1..] == p[k + 1..] + rest;
    } else {
      assert t[k + 1..] == rest && p[k + 1..] + rest == rest;
      assert rest != "" ==> t[k + 1] == rest[0] && t[k + 2..] == rest[1..];
    }
  }

  function FirstCR(p: string): (k: nat)
    ensures k <= |p| && (k < |p| ==> p[k] == CR) && forall i :: 0 <= i < k ==> p[i] != CR
  {
    if p == "" || p[0] == CR then 0 else 1 + FirstCR(p[1..])
  }

  /** Unquoted text p, with what is printed after it, is read off in safe fields. */
  lemma {:induction false} PlainSafe(d: char, p: string, fields: seq<string>, rows: seq<seq<string>>)
    requires Ordinary(d) && QUOTE !in p && LF !in p && d !in p
    ensures SafeText(d, p + RestText(d, fields, rows))
    decreases Left(fields, rows), |p| + 1
  {
    hide First, FormatValue, FormatRows, FormatRow, RestText;
    var rest, k := RestText(d, fields, rows), FirstCR(p);
    RestTail(d, fields, rows);
    if p + rest != "" {
      if k == |p| {
        assert forall i :: 0 <= i < |p| ==> p[i] in p && !Ends(d, p[i]);
        FirstPlain(d, p, rest);
        RestSafe(d, fields, rows);
        assert CR !in p;
      } else {
        assert forall i :: 0 <= i < k ==> p[i] in p && !Ends(d, p[i]);
        FirstCut(d, p, k, rest);
        assert CR !in p[..k];
        if k + 1 == |p| && rest != "" && rest[0] == LF {
          RestSafe(d, fields, rows);
        } else {
          PlainSafe(d, p[k + 1..], fields, rows);
        }
      }
    }
  }

  /** What comes after a field is read off in safe fields, once the delimiter or line feed has been taken. */
  lemma {:induction false} RestSafe(d: char, fields: seq<string>, rows: seq<seq<string>>)
    requires Ordinary(d)
    ensures var rest := RestText(d, fields, rows); rest != "" ==> SafeText(d, rest[1..])
    decreases Left(fields, rows), 0
  {
    hide First, FormatValue, FormatRows, FormatRow, SafeText;
    if fields != [] {
      assert RestText(d, fields, rows)[1..] == FormatValue(d, fields[0]) + RestText(d, fields[1..], rows);
      ValueSafe(d, fields[0], fields[1..], rows);
    } else if rows != [] {
      assert RestText(d, fields, rows)[1..] == FormatRows(d, rows);
      RowsText(d, rows);
      if rows[0] == [] {
        assert Left([], rows[1..]) < Left(fields, rows);
        assert "" + RestText(d, [], rows[1..]) == RestText(d, [], rows[1..]);
        PlainSafe(d, "", [], rows[1..]);
      } else {
        assert Left(rows[0][1..], rows[1..]) < Left(rows[0], rows[1..]) < Left(fields, rows);
        ValueSafe(d, rows[0][0], rows[0][1..], rows[1..]);
      }
    }
  }

  lemma {:induction false} ValueSafe(d: char, f: string, fields: seq<string>, rows: seq<seq<string>>)
    requires Ordinary(d)
    ensures SafeText(d, FormatValue(d, f) + RestText(d, fields, rows))
    decreases Left(fields, rows), |f| + 2
  {
    hide First, FormatRows, FormatRow, RestText;
    var rest := RestText(d, fields, rows);
    if Matches(d, f) {
      RestTail(d, fields, rows);
      FirstField(d, f, rest);
      RestSafe(d, fields, rows);
    } else {
      PlainSafe(d, f, fields, rows);
    }
  }

  /** Whatever is printed is read off in safe fields. */
  lemma PrintedSafe(d: char, rows: seq<seq<string>>)
    requires Ordinary(d)
    ensures SafeText(d, FormatRows(d, rows))
  {
    hide First, FormatValue, FormatRows, FormatRow, SafeText;
    if rows == [] {
      NoRows(d);
      NoText(d);
    } else {
      RowsText(d, rows);
      if rows[0] == [] {
        assert "" + RestText(d, [], rows[1..]) == RestText(d, [], rows[1..]);
        PlainSafe(d, "", [], rows[1..]);
      } else {
        ValueSafe(d, rows[0][0], rows[0][1..], rows[1..]);
      }
    }
  }

  lemma NoText(d: char)
    requires d != '-'
    ensures SafeText(d, "")
  {
  }

  // ---------- the round trip ----------

  /** With an ordinary delimiter, exactly the good rows are read back as they were printed. */
  lemma RoundTrip(d: char, rows: seq<seq<string>>)
    requires Ordinary(d)
    ensures Parse(d, FormatRows(d, rows)) == rows <==> Good(d, rows)
  {
    hide FormatRows, Parse, Safe, SafeText, Last;
    var s := FormatRows(d, rows);
    if Good(d, rows) {
      RowsBack(d, rows);
    } else if Parse(d, s) == rows {
      ParsedNotEmpty(d, s);
      PrintedSafe(d, rows);
      SafeRows(d, s);
      LastLost(d, rows);
      Shorter(rows);
    }
  }

  /** Without its last field, the list of rows is a different one. */
  lemma Shorter(rows: seq<seq<string>>)
    requires rows != []
    ensures var last := rows[|rows| - 1]; last != [] ==>
        var shorter := last[..|last| - 1]; rows[..|rows| - 1] + (if shorter == [] then [] else [shorter]) != rows
  {
    var last := rows[|rows| - 1];
    if last != [] {
      var shorter := last[..|last| - 1];
      var other := rows[..|rows| - 1] + (if shorter == [] then [] else [shorter]);
      if shorter != [] {
        assert other[|rows| - 1] == shorter;
      } else {
        assert |other| == |rows| - 1;
      }
    }
  }

  /** Rows that should be read back with any delimiter: none empty, no carriage return, the very last field not empty. */
  predicate Plain(rows: seq<seq<string>>) {
    && (forall i :: 0 <= i < |rows| ==> rows[i] != [] && forall j :: 0 <= j < |rows[i]| ==> CR !in rows[i][j])
    && (rows != [] ==> Last(rows[|rows| - 1]) != "")
  }

  /** d works for the given rows. There is no printer at all for the hyphen. */
  ghost predicate ReadBack(d: char, rows: seq<seq<string>>) {
    d != '-' && Parse(d, FormatRows(d, rows)) == rows
  }

  /** All plain rows are read back exactly if the delimiter is ordinary. */
  lemma OrdinaryNeeded(d: char)
    ensures (forall rows :: Plain(rows) ==> ReadBack(d, rows)) <==> Ordinary(d)
  {
    if Ordinary(d) {
      forall rows | Plain(rows) ensures ReadBack(d, rows) {
        RoundTrip(d, rows);
      }
    } else {
      var bad := Unread(d);
    }
  }

  /** Rows that fail for the other delimiters. */
  lemma Unread(d: char) returns (rows: seq<seq<string>>)
    requires !Ordinary(d)
    ensures Plain(rows) && !ReadBack(d, rows)
  {
    hide Parse, FormatRows, Plain;
    if d == '-' {
      rows := [];
      NoneToRead();
    } else if d == ']' || d == '\\' {
      rows := [[[d]]];
      UnreadBracket(d);
    } else if d == QUOTE {
      rows := [["", "a"]];
      UnreadQuote(d);
    } else {
      rows := [["a", "b"]];
      UnreadEnd(d);
    }
  }

  lemma NoneToRead()
    ensures Plain([])
  {
  }

  lemma UnreadBracket(d: char)
    requires d == ']' || d == '\\'
    ensures Plain([[[d]]]) && Parse(d, FormatRows(d, [[[d]]])) != [[[d]]]
  {
    OneField(d, [d]);
    hide FormatRows;
    assert First(d, [d]).field == [];
    assert Parse(d, [d])[0][0] == [];
  }

  lemma UnreadQuote(d: char)
    requires d == QUOTE
    ensures Plain([["", "a"]]) && Parse(d, FormatRows(d, [["", "a"]])) != [["", "a"]]
  {
    TwoFields(d, "", "a");
    hide FormatRows;
    var t := [QUOTE, 'a'];
    assert Close(t[1..], 0) == 1;
    assert t[1..][..1] == "a" && Unescape("a") == "a";
    assert First(d, t).field == "a";
    assert Parse(d, t)[0][0] == "a";
  }

  lemma UnreadEnd(d: char)
    requires d == CR || d == LF
    ensures Plain([["a", "b"]]) && Parse(d, FormatRows(d, [["a", "b"]])) != [["a", "b"]]
  {
    TwoFields(d, "a", "b");
    hide FormatRows, Close, Unescape, From;
    var t := ['a', d, 'b'];
    assert FormatRows(d, [["a", "b"]]) == t;
    assert Stop(d, t, 0) == 1;
    assert First(d, t).eol;
    hide First, Stop;
    assert |RowOf(d, t).0| == 1;
    ParseStep(d, t);
  }

  lemma OneField(d: char, f: string)
    requires d != '-'
    ensures FormatRows(d, [[f]]) == FormatValue(d, f)
  {
    FormatRowsStep(d, [[f]]);
    FormatRowStep(d, [f]);
  }

  lemma TwoFields(d: char, f: string, g: string)
    requires d != '-'
    ensures FormatRows(d, [[f, g]]) == FormatValue(d, f) + [d] + FormatValue(d, g)
  {
    FormatRowsStep(d, [[f, g]]);
    FormatRowStep(d, [f, g]);
    FormatRowStep(d, [g]);
    assert [f, g][1..] == [g];
  }
}
