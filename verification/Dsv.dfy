/** Delimiter-separated values: the formatter, the tokenizer with its end-of-line flag, and
    the exact set of tables that survive formatting and parsing. */
module Dsv {

  const QUOTE := '"'
  const LF := '\n'
  const CR := '\r'

  /** Comma and tab are. The tokenizer could not tell a quote or the end of a line from the
      delimiter, and with `-` the expression of `NeedsQuotes` is a range in the wrong order, which
      throws before anything is formatted. */
  predicate IsDelimiter(d: char) {
    d != QUOTE && d != LF && d != CR && d != '-'
  }

  // Formatting

  predicate Contains(s: string, w: string) {
    w <= s || (s != "" && Contains(s[1..], w))
  }

  /** `new RegExp("[\"" + d + "\n]").test(field)`: the delimiter is not escaped, so `]` closes the
      class in front of the line feed, and a backslash escapes it. */
  predicate NeedsQuotes(d: char, field: string) {
    if d == ']' then Contains(field, [QUOTE, LF, ']'])
    else QUOTE in field || LF in field || (d != '\\' && d in field)
  }

  /** `replace(/"/g, '""')` */
  function Doubled(s: string): string {
    if s == "" then "" else (if s[0] == QUOTE then [QUOTE, QUOTE] else [s[0]]) + Doubled(s[1..])
  }

  function FormatValue(d: char, field: string): string {
    if NeedsQuotes(d, field) then [QUOTE] + Doubled(field) + [QUOTE] else field
  }

  function FormatRow(d: char, row: seq<string>): string {
    if row == [] then ""
    else if |row| == 1 then FormatValue(d, row[0])
    else FormatValue(d, row[0]) + [d] + FormatRow(d, row[1..])
  }

  function FormatRows(d: char, rows: seq<seq<string>>): string {
    if rows == [] then ""
    else if |rows| == 1 then FormatRow(d, rows[0])
    else FormatRow(d, rows[0]) + [LF] + FormatRows(d, rows[1..])
  }

  // Parsing, as a function of the text that is left

  /** A field, the text after it and its separator, and whether that separator ended the line. */
  datatype Scan = Scan(field: string, rest: string, eol: bool)

  /** Length up to the closing quote, or of the whole text if there is none. */
  function Closing(s: string): (n: nat)
    ensures n <= |s|
  {
    if s == "" then 0
    else if s[0] == QUOTE then
      if |s| > 1 && s[1] == QUOTE then 2 + Closing(s[2..]) else 0
    else 1 + Closing(s[1..])
  }

  /** `replace(/""/g, '"')` */
  function Undoubled(s: string): string {
    if s == "" then ""
    else if |s| > 1 && s[0] == QUOTE && s[1] == QUOTE then [QUOTE] + Undoubled(s[2..])
    else [s[0]] + Undoubled(s[1..])
  }

  function Drop(s: string, n: nat): string {
    if n <= |s| then s[n..] else ""
  }

  /** What follows a closing quote: one separator character, or CR LF. */
  function AfterQuote(field: string, s: string): Scan {
    if s == "" then Scan(field, "", false)
    else if s[0] == CR then Scan(field, Drop(s, if |s| > 1 && s[1] == LF then 2 else 1), true)
    else Scan(field, s[1..], s[0] == LF)
  }

  function ScanPlain(d: char, s: string, n: nat): Scan
    requires n <= |s|
    decreases |s| - n
  {
    if n == |s| then Scan(s, "", false)
    else if s[n] == LF then Scan(s[..n], s[n + 1..], true)
    else if s[n] == CR then Scan(s[..n], Drop(s, if n + 1 < |s| && s[n + 1] == LF then n + 2 else n + 1), true)
    else if s[n] == d then Scan(s[..n], s[n + 1..], false)
    else ScanPlain(d, s, n + 1)
  }

  function ScanField(d: char, s: string): Scan
    requires s != ""
  {
    if s[0] == QUOTE then
      var body := s[1..];
      AfterQuote(Undoubled(body[..Closing(body)]), Drop(body, Closing(body) + 1))
    else ScanPlain(d, s, 0)
  }

  lemma {:induction false} ScanPlainProgress(d: char, s: string, n: nat)
    requires n <= |s| && s != ""
    ensures |ScanPlain(d, s, n).rest| < |s|
    decreases |s| - n
  {
    if n < |s| && s[n] != LF && s[n] != CR && s[n] != d { ScanPlainProgress(d, s, n + 1); }
  }

  lemma ScanProgress(d: char, s: string)
    requires s != ""
    ensures |ScanField(d, s).rest| < |s|
  {
    if s[0] != QUOTE { ScanPlainProgress(d, s, 0); }
  }

  /** The fields up to the end of the line or of the text, and the text after the line. */
  function Row(d: char, s: string): (r: (seq<string>, string))
    requires s != ""
    ensures r.0 != [] && |r.1| < |s|
    decreases |s|
  {
    ScanProgress(d, s);
    var t := ScanField(d, s);
    if t.eol || t.rest == "" then ([t.field], t.rest)
    else
      var more := Row(d, t.rest);
      ([t.field] + more.0, more.1)
  }

  function Parse(d: char, s: string): seq<seq<string>>
    decreases |s|
  {
    if s == "" then [] else
      var line := Row(d, s);
      [line.0] + Parse(d, line.1)
  }

  // The tokenizer as the loops it is

  datatype Token = EOF | EOL | Field(text: string)

  lemma QuotedParts(text: string, d: char, j: nat, i: nat)
    requires j < |text| && text[j] == QUOTE && i > j
    requires i <= |text| ==> i == j + 1 + Closing(text[j + 1..])
    requires i > |text| ==> j + 1 + Closing(text[j + 1..]) == |text| && i == |text| + 1
    ensures var field := Undoubled(text[j + 1..if i <= |text| then i else |text|]);
            ScanField(d, Drop(text, j)) == AfterQuote(field, Drop(text, i + 1))
  {
    var s := text[j..];
    var body := s[1..];
    var end := if i <= |text| then i else |text|;
    assert body == text[j + 1..] && body[..Closing(body)] == text[j + 1..end];
    assert Drop(body, Closing(body) + 1) == Drop(text, i + 1);
  }

  lemma PlainEnds(text: string, d: char, j: nat)
    requires j < |text|
    ensures |Drop(text, j)| == |text| - j
    ensures ScanPlain(d, Drop(text, j), |text| - j) == Scan(text[j..], Drop(text, |text|), false)
  {
  }

  /** How many characters the separator at `i` has: two for CR LF. */
  function SeparatorLength(text: string, i: nat): (k: nat)
    requires i < |text|
    ensures i + k <= |text|
  {
    if text[i] == CR && i + 1 < |text| && text[i + 1] == LF then 2 else 1
  }

  lemma PlainStep(text: string, d: char, j: nat, i: nat)
    requires j <= i < |text|
    ensures |Drop(text, j)| == |text| - j
    ensures ScanPlain(d, Drop(text, j), i - j) ==
      if text[i] == LF || text[i] == CR || text[i] == d
      then Scan(text[j..i], Drop(text, i + SeparatorLength(text, i)), text[i] == LF || text[i] == CR)
      else ScanPlain(d, Drop(text, j), i + 1 - j)
  {
    var s := text[j..];
    assert s[..i - j] == text[j..i] && s[i - j + 1..] == text[i + 1..];
  }

  class Tokenizer {
    const text: string
    const delimiter: char
    var index: nat   // the current character
    var eol: bool    // is the current token followed by an end of line?

    constructor (text: string, delimiter: char)
      ensures this.text == text && this.delimiter == delimiter && index == 0 && !eol && Left() == text
    {
      this.text, this.delimiter, index, eol := text, delimiter, 0, false;
    }

    function Left(): string
      reads this
    {
      Drop(text, index)
    }

    predicate At(i: nat, c: char) {
      i < |text| && text[i] == c
    }

    /** The loop that looks for the closing quote. */
    method FindClosing(j: nat) returns (i: nat)
      requires At(j, QUOTE)
      ensures i > j
      ensures i <= |text| ==> i == j + 1 + Closing(text[j + 1..])
      ensures i > |text| ==> j + 1 + Closing(text[j + 1..]) == |text| && i == |text| + 1
    {
      i := j;
      while true
        invariant j <= i <= |text|
        invariant i < |text| ==> j + 1 + Closing(text[j + 1..]) == i + 1 + Closing(text[i + 1..])
        invariant i == |text| ==> j + 1 + Closing(text[j + 1..]) == |text|
        decreases |text| - i
      {
        if i >= |text| {
          i := i + 1;
          break;
        }
        i := i + 1;
        if At(i, QUOTE) {
          if !At(i + 1, QUOTE) { break; }
          i := i + 1;
          assert text[i - 1..][2..] == text[i + 1..];
        } else if i < |text| {
          assert text[i..][1..] == text[i + 1..];
        }
      }
    }

    method Quoted() returns (t: Token)
      requires At(index, QUOTE) && !eol
      modifies this
      ensures var s := ScanField(delimiter, old(Left()));
              t == Field(s.field) && Left() == s.rest && eol == s.eol
    {
      var j := index;
      var i := FindClosing(j);
      QuotedParts(text, delimiter, j, i);
      index := i + 2;
      if At(i + 1, CR) {
        eol := true;
        if At(i + 2, LF) { index := index + 1; }
      } else if At(i + 1, LF) {
        eol := true;
      }
      t := Field(Undoubled(text[j + 1..if i <= |text| then i else |text|]));
    }

    /** Does `c`, which has just been passed, end a field, and over how many characters? */
    method EndsField(c: char) returns (ends: bool, k: nat)
      requires !eol && 0 < index <= |text| && text[index - 1] == c
      modifies this
      ensures ends == (c == LF || c == CR || c == delimiter) && eol == (c == LF || c == CR)
      ensures k == SeparatorLength(text, old(index) - 1) && index == old(index) + k - 1
      ensures k >= 1 && (!ends ==> k == 1)
    {
      ends, k := true, 1;
      if c == LF {
        eol := true;
      } else if c == CR {
        eol := true;
        if At(index, LF) { index, k := index + 1, k + 1; }
      } else if c != delimiter {
        ends := false;
      }
    }

    /** The loop that looks for the end of the field: behind the text if nothing ends it. */
    method FindEnd(j: nat) returns (k: nat)
      requires j == index < |text| && !eol
      modifies this
      ensures j + k <= index <= |text| && (k == 0 ==> index == |text|)
      ensures var s := Drop(text, j);
              ScanPlain(delimiter, s, 0) ==
              if k == 0 then Scan(text[j..], Drop(text, index), eol)
              else Scan(text[j..index - k], Drop(text, index), eol)
    {
      ghost var s := Drop(text, j);
      hide ScanPlain, Drop, SeparatorLength;
      PlainEnds(text, delimiter, j);
      while index < |text|
        invariant j <= index <= |text| && !eol
        invariant ScanPlain(delimiter, s, 0) == ScanPlain(delimiter, s, index - j)
        decreases |text| - index
      {
        PlainStep(text, delimiter, j, index);
        index := index + 1;
        var ends;
        ends, k := EndsField(text[index - 1]);
        if ends { return; }
      }
      k := 0;
    }

    method Plain() returns (t: Token)
      requires index < |text| && !At(index, QUOTE) && !eol
      modifies this
      ensures var s := ScanField(delimiter, old(Left()));
              t == Field(s.field) && Left() == s.rest && eol == s.eol
    {
      var j := index;
      var k := FindEnd(j);
      t := Field(if k == 0 then text[j..] else text[j..index - k]);
    }

    method Next() returns (t: Token)
      modifies this
      ensures old(Left()) == "" ==> t == EOF && Left() == ""
      ensures old(Left()) != "" && old(eol) ==> t == EOL && Left() == old(Left()) && !eol
      ensures old(Left()) != "" && !old(eol) ==>
                var s := ScanField(delimiter, old(Left()));
                t == Field(s.field) && Left() == s.rest && eol == s.eol
    {
      if index >= |text| { return EOF; }
      if eol {
        eol := false;
        return EOL;
      }
      if text[index] == QUOTE {
        t := Quoted();
      } else {
        t := Plain();
      }
    }
  }

  /** The rest of a line whose current field has been scanned. */
  function RowFrom(d: char, s: Scan): (seq<string>, string) {
    if s.eol || s.rest == "" then ([s.field], s.rest)
    else ([s.field] + Row(d, s.rest).0, Row(d, s.rest).1)
  }

  lemma RowFromNext(d: char, a: seq<string>, s: Scan)
    requires !s.eol && s.rest != ""
    ensures var s1 := ScanField(d, s.rest);
            && |s1.rest| < |s.rest|
            && (a + RowFrom(d, s).0, RowFrom(d, s).1) == (a + [s.field] + RowFrom(d, s1).0, RowFrom(d, s1).1)
  {
    ScanProgress(d, s.rest);
    var s1 := ScanField(d, s.rest);
    assert a + ([s.field] + RowFrom(d, s1).0) == a + [s.field] + RowFrom(d, s1).0;
  }

  /** The inner loop: `first` is the first field of a line. */
  method ParseLine(tokenizer: Tokenizer, first: Token, ghost scan: Scan) returns (a: seq<string>)
    requires first == Field(scan.field) && tokenizer.Left() == scan.rest && tokenizer.eol == scan.eol
    modifies tokenizer
    ensures RowFrom(tokenizer.delimiter, scan) == (a, tokenizer.Left())
    ensures tokenizer.Left() != "" ==> !tokenizer.eol
  {
    hide ScanField, Row;
    var t := first;
    ghost var s := scan;
    ghost var d := tokenizer.delimiter;
    a := [];
    assert [] + RowFrom(d, s).0 == RowFrom(d, s).0;
    while t != EOL && t != EOF
      invariant t.Field? ==> t == Field(s.field) && tokenizer.Left() == s.rest && tokenizer.eol == s.eol
      invariant t.Field? ==> RowFrom(d, scan) == (a + RowFrom(d, s).0, RowFrom(d, s).1)
      invariant !t.Field? ==> RowFrom(d, scan) == (a, tokenizer.Left()) && !(tokenizer.Left() != "" && tokenizer.eol)
      decreases if t.Field? then 2 + |s.rest| else 0
    {
      ghost var a0 := a;
      a := a + [t.text];
      t := tokenizer.Next();
      if t.Field? {
        RowFromNext(d, a0, s);
        s := ScanField(d, s.rest);
      }
    }
  }

  lemma ParseLineFirst(d: char, rows: seq<seq<string>>, start: string)
    requires start != ""
    ensures var (a, left) := RowFrom(d, ScanField(d, start));
            |left| < |start| && rows + Parse(d, start) == rows + [a] + Parse(d, left)
  {
    hide ScanField;
    var (a, left) := RowFrom(d, ScanField(d, start));
    assert Row(d, start) == (a, left);
    assert rows + ([a] + Parse(d, left)) == rows + [a] + Parse(d, left);
  }

  method ParseRows(d: char, text: string) returns (rows: seq<seq<string>>)
    ensures rows == Parse(d, text)
  {
    hide ScanField, Parse, RowFrom, Drop;
    var tokenizer := new Tokenizer(text, d);
    rows := [];
    assert [] + Parse(d, text) == Parse(d, text);
    var t := tokenizer.Next();
    ghost var start := text;   // the text at the last row start
    while t != EOF
      invariant fresh(tokenizer) && tokenizer.delimiter == d
      invariant Parse(d, text) == rows + Parse(d, start)
      invariant start == "" <==> t == EOF
      invariant start != "" ==>
        var s := ScanField(d, start);
        t == Field(s.field) && tokenizer.Left() == s.rest && tokenizer.eol == s.eol
      decreases |start|
    {
      ParseLineFirst(d, rows, start);
      var a := ParseLine(tokenizer, t, ScanField(d, start));
      rows := rows + [a];
      start := tokenizer.Left();
      t := tokenizer.Next();
    }
    NoRows(d);
    assert rows + [] == rows;
  }

  lemma NoRows(d: char)
    ensures Parse(d, "") == []
  {
  }

  // Which tables survive

  /** Nothing that ends a field, and no quote that would begin a quoted one. */
  predicate Bare(d: char, field: string) {
    CR !in field && LF !in field && d !in field && (field != "" ==> field[0] != QUOTE)
  }

  predicate Safe(d: char, field: string) {
    NeedsQuotes(d, field) || Bare(d, field)
  }

  /** For every delimiter that means itself in the expression, a carriage return outside quotes is
      all that is unsafe: it ends the line, and nothing else makes the formatter quote it. */
  lemma SafeForMost(d: char, field: string)
    requires IsDelimiter(d) && d != ']' && d != '\\'
    ensures Safe(d, field) <==> (CR in field ==> NeedsQuotes(d, field))
  {
    assert field != "" && field[0] == QUOTE ==> QUOTE in field;
  }

  /** No row is empty, every field is safe, and the last field of all is not empty. */
  predicate Survives(d: char, rows: seq<seq<string>>) {
    && (forall r :: r in rows ==> r != [] && forall f :: f in r ==> Safe(d, f))
    && (rows != [] ==> var last := rows[|rows| - 1]; last != [] && last[|last| - 1] != "")
  }

  predicate EndsLine(rest: string) {
    rest != "" && (rest[0] == LF || rest[0] == CR)
  }

  predicate Follows(d: char, rest: string) {
    rest == "" || rest[0] == d || EndsLine(rest)
  }

  /** The text behind a separator, of which CR LF is one. */
  function Behind(rest: string): string {
    Drop(rest, if [CR, LF] <= rest then 2 else 1)
  }

  lemma {:induction false} UndoubledDoubled(s: string)
    ensures Undoubled(Doubled(s)) == s
  {
    if s == "" {
    } else {
      UndoubledDoubled(s[1..]);
      var t := Doubled(s[1..]);
      if s[0] == QUOTE {
        assert Doubled(s) == [QUOTE, QUOTE] + t;
        assert ([QUOTE, QUOTE] + t)[2..] == t;
      } else {
        assert ([s[0]] + t)[1..] == t;
      }
    }
  }

  /** The closing quote is found exactly at the end of the doubled text. */
  lemma {:induction false} ClosingOfDoubled(s: string, rest: string)
    requires rest == "" || rest[0] != QUOTE
    ensures Closing(Doubled(s) + [QUOTE] + rest) == |Doubled(s)|
  {
    var t := Doubled(s) + [QUOTE] + rest;
    if s == "" {
      assert t[1..] == rest;
    } else {
      ClosingOfDoubled(s[1..], rest);
      var u := Doubled(s[1..]) + [QUOTE] + rest;
      if s[0] == QUOTE { assert t[2..] == u; } else { assert t[1..] == u; }
    }
  }

  lemma {:induction false} ScanPlainField(d: char, f: string, rest: string, n: nat)
    requires IsDelimiter(d) && Bare(d, f) && Follows(d, rest) && n <= |f|
    ensures ScanPlain(d, f + rest, n) == Scan(f, Behind(rest), EndsLine(rest))
    decreases |f| - n
  {
    var s := f + rest;
    if n < |f| {
      assert s[n] == f[n] && f[n] in f;
      ScanPlainField(d, f, rest, n + 1);
    } else {
      assert s[..n] == f;
      if rest == "" {
        assert s == f;
      } else {
        assert s[n] == rest[0] && s[n + 1..] == rest[1..];
        assert [CR, LF] <= rest <==> |rest| > 1 && rest[0] == CR && rest[1] == LF;
        assert |rest| > 1 ==> s[n + 1] == rest[1] && s[n + 2..] == rest[2..];
      }
    }
  }

  lemma ScanQuoted(d: char, body: string)
    ensures ScanField(d, [QUOTE] + body) == AfterQuote(Undoubled(body[..Closing(body)]), Drop(body, Closing(body) + 1))
  {
    hide Undoubled, AfterQuote;
    assert ([QUOTE] + body)[1..] == body;
  }

  lemma AfterQuoteFollows(d: char, f: string, rest: string)
    requires IsDelimiter(d) && Follows(d, rest)
    ensures AfterQuote(f, rest) == Scan(f, Behind(rest), EndsLine(rest))
  {
    assert [CR, LF] <= rest <==> |rest| > 1 && rest[0] == CR && rest[1] == LF;
  }

  lemma Around(s: string, rest: string)
    ensures (s + [QUOTE] + rest)[..|s|] == s && Drop(s + [QUOTE] + rest, |s| + 1) == rest
  {
  }

  lemma QuotedFieldRoundTrip(d: char, f: string, rest: string)
    requires IsDelimiter(d) && Follows(d, rest)
    ensures ScanField(d, [QUOTE] + Doubled(f) + [QUOTE] + rest) == Scan(f, Behind(rest), EndsLine(rest))
  {
    hide Undoubled, Doubled, Closing, AfterQuote, ScanField;
    var body := Doubled(f) + [QUOTE] + rest;
    ClosingOfDoubled(f, rest);
    Around(Doubled(f), rest);
    hide Drop;
    UndoubledDoubled(f);
    ScanQuoted(d, body);
    AfterQuoteFollows(d, f, rest);
    assert [QUOTE] + body == [QUOTE] + Doubled(f) + [QUOTE] + rest;
  }

  /** The tokenizer reads back a safe field and its separator. */
  lemma FieldRoundTrip(d: char, f: string, rest: string)
    requires IsDelimiter(d) && Safe(d, f) && Follows(d, rest) && FormatValue(d, f) + rest != ""
    ensures ScanField(d, FormatValue(d, f) + rest) == Scan(f, Behind(rest), EndsLine(rest))
  {
    if NeedsQuotes(d, f) {
      QuotedFieldRoundTrip(d, f, rest);
    } else {
      hide NeedsQuotes;
      var s := f + rest;
      assert f != "" ==> s[0] == f[0] && f[0] != QUOTE;
      assert f == "" ==> s == rest;
      ScanPlainField(d, f, rest, 0);
    }
  }

  lemma {:induction false} ScanStops(d: char, s: string, n: nat, k: nat)
    requires n <= k < |s| && (s[k] == CR || s[k] == LF || s[k] == d)
    ensures |ScanPlain(d, s, n).field| <= k
    decreases k - n
  {
    if n < k && s[n] != LF && s[n] != CR && s[n] != d { ScanStops(d, s, n + 1, k); }
  }

  function LeadingQuotes(s: string): nat {
    if s != "" && s[0] == QUOTE then 1 + LeadingQuotes(s[1..]) else 0
  }

  /** Of the quotes in front of a quoted text only every other one is read. */
  lemma {:induction false} QuotesHalve(s: string)
    ensures 2 * LeadingQuotes(Undoubled(s[..Closing(s)])) <= LeadingQuotes(s)
    decreases |s|
  {
    var t := s[..Closing(s)];
    if s == "" || s[0] != QUOTE {
      assert t == "" || t[0] == s[0];
    } else if |s| > 1 && s[1] == QUOTE {
      QuotesHalve(s[2..]);
      assert t[2..] == s[2..][..Closing(s[2..])];
      assert s[1..][1..] == s[2..];
      var u := Undoubled(t[2..]);
      assert ([QUOTE] + u)[1..] == u;
    }
  }

  lemma {:induction false} QuotesInFront(f: string, rest: string)
    requires rest != "" ==> rest[0] != QUOTE
    ensures LeadingQuotes(f + rest) == LeadingQuotes(f)
  {
    if f == "" {
      assert f + rest == rest;
    } else {
      QuotesInFront(f[1..], rest);
      assert (f + rest)[1..] == f[1..] + rest;
    }
  }

  lemma UnsafeFieldIsCut(d: char, f: string, rest: string)
    requires IsDelimiter(d) && Follows(d, rest) && !Safe(d, f)
    ensures FormatValue(d, f) + rest != "" && ScanField(d, FormatValue(d, f) + rest).field != f
  {
    var s := f + rest;
    assert FormatValue(d, f) == f && f != "" && s[0] == f[0];
    if f[0] == QUOTE {
      var body := f[1..] + rest;
      assert s == [QUOTE] + body;
      QuotesHalve(body);
      QuotesInFront(f[1..], rest);
      hide ScanField, NeedsQuotes, Undoubled, AfterQuote;
      ScanQuoted(d, body);
      AfterQuoteField(Undoubled(body[..Closing(body)]), Drop(body, Closing(body) + 1));
    } else {
      var k :| 0 <= k < |f| && (f[k] == CR || f[k] == LF || f[k] == d);
      assert s[k] == f[k];
      ScanStops(d, s, 0, k);
    }
  }

  lemma AfterQuoteField(field: string, s: string)
    ensures AfterQuote(field, s).field == field
  {
  }

  lemma RowStep(d: char, row: seq<string>, rest: string)
    requires |row| > 1
    ensures FormatRow(d, row) + rest == FormatValue(d, row[0]) + ([d] + (FormatRow(d, row[1..]) + rest))
  {
  }

  lemma RowOfField(d: char, f: string, tail: string)
    requires IsDelimiter(d) && Safe(d, f)
    ensures var s := FormatValue(d, f) + ([d] + tail);
            && s != ""
            && Row(d, s) == if tail == "" then ([f], "") else ([f] + Row(d, tail).0, Row(d, tail).1)
  {
    hide ScanField, FormatValue, Safe;
    FieldRoundTrip(d, f, [d] + tail);
    assert ([d] + tail)[0] == d && Behind([d] + tail) == tail;
  }

  lemma RowOfLastField(d: char, f: string, rest: string)
    requires IsDelimiter(d) && Safe(d, f) && (rest == "" || EndsLine(rest)) && FormatValue(d, f) + rest != ""
    ensures Row(d, FormatValue(d, f) + rest) == ([f], Behind(rest))
  {
    hide ScanField, FormatValue, Safe;
    FieldRoundTrip(d, f, rest);
  }

  /** A line of safe fields is read back whole, unless it ends the text in an empty field. */
  lemma {:induction false} RowRoundTrip(d: char, row: seq<string>, rest: string)
    requires IsDelimiter(d) && row != [] && (forall f :: f in row ==> Safe(d, f))
    requires rest == "" || EndsLine(rest)
    requires rest == "" ==> row[|row| - 1] != ""
    ensures FormatRow(d, row) + rest != "" && Row(d, FormatRow(d, row) + rest) == (row, Behind(rest))
  {
    hide ScanField, FormatValue, Row, Safe;
    FormatValueEmpty(d, row[0]);
    if |row| == 1 {
      RowOfLastField(d, row[0], rest);
      assert [row[0]] == row;
    } else {
      var tail := FormatRow(d, row[1..]) + rest;
      RowStep(d, row, rest);
      RowOfField(d, row[0], tail);
      RowRoundTrip(d, row[1..], rest);
      assert [row[0]] + row[1..] == row;
    }
  }

  lemma FormatValueEmpty(d: char, f: string)
    ensures FormatValue(d, f) == "" <==> f == ""
  {
  }

  /** A trailing empty field at the end of the text is dropped. */
  lemma {:induction false} TrailingEmptyField(d: char, row: seq<string>)
    requires IsDelimiter(d) && row != [] && (forall f :: f in row ==> Safe(d, f)) && row[|row| - 1] == ""
    ensures FormatRow(d, row) == "" <==> |row| == 1
    ensures |row| > 1 ==> Row(d, FormatRow(d, row)) == (row[..|row| - 1], "")
  {
    hide ScanField, FormatValue, Row, Safe;
    FormatValueEmpty(d, row[0]);
    if |row| > 1 {
      var tail := FormatRow(d, row[1..]);
      RowStep(d, row, "");
      assert FormatRow(d, row) + "" == FormatRow(d, row) && tail + "" == tail;
      RowOfField(d, row[0], tail);
      TrailingEmptyField(d, row[1..]);
      if |row| > 2 { assert [row[0]] + row[1..][..|row| - 2] == row[..|row| - 1]; } else { assert [row[0]] == row[..1]; }
    }
  }

  /** A line with an unsafe field is not read back. */
  lemma {:induction false} UnsafeRow(d: char, row: seq<string>, rest: string)
    requires IsDelimiter(d) && (exists f :: f in row && !Safe(d, f)) && (rest == "" || EndsLine(rest))
    ensures FormatRow(d, row) + rest != "" && Row(d, FormatRow(d, row) + rest).0 != row
  {
    hide ScanField, FormatValue;
    if |row| > 1 { RowStep(d, row, rest); }
    var after := if |row| == 1 then rest else [d] + (FormatRow(d, row[1..]) + rest);
    if !Safe(d, row[0]) {
      UnsafeFieldIsCut(d, row[0], after);
    } else {
      var tail := FormatRow(d, row[1..]) + rest;
      RowOfField(d, row[0], tail);
      UnsafeRow(d, row[1..], rest);
      var more := Row(d, tail).0;
      assert ([row[0]] + more)[1..] == more;
    }
  }

  // Tables with any line end

  predicate IsLineEnd(e: string) {
    e == [LF] || e == [CR] || e == [CR, LF]
  }

  /** The lines of a table, separated by the line end; `FormatRows` takes LF. */
  function Lines(d: char, e: string, rows: seq<seq<string>>): string {
    if rows == [] then ""
    else if |rows| == 1 then FormatRow(d, rows[0])
    else FormatRow(d, rows[0]) + (e + Lines(d, e, rows[1..]))
  }

  lemma {:induction false} FormattedLines(d: char, rows: seq<seq<string>>)
    ensures FormatRows(d, rows) == Lines(d, [LF], rows)
  {
    hide FormatRow;
    if |rows| > 1 { FormattedLines(d, rows[1..]); }
  }

  /** Between a CR and what comes next no CR LF arises. */
  predicate Apart(e: string, tail: string) {
    e == [CR] && tail != "" ==> tail[0] != LF
  }

  lemma LineEndEnds(e: string, tail: string)
    requires IsLineEnd(e)
    ensures e + tail != "" && EndsLine(e + tail)
  {
  }

  lemma BehindLineEnd(e: string, tail: string)
    requires IsLineEnd(e) && Apart(e, tail)
    ensures EndsLine(e + tail) && Behind(e + tail) == tail
  {
    var rest := e + tail;
    assert |rest| > 1 && |e| == 1 ==> rest[1] == tail[0];
    assert [CR, LF] <= rest <==> |rest| > 1 && rest[0] == CR && rest[1] == LF;
  }

  predicate NoLineFeedInFront(s: string) {
    s != "" ==> s[0] != LF
  }

  lemma FrontOfJoined(a: string, b: string)
    requires NoLineFeedInFront(a) && NoLineFeedInFront(b)
    ensures NoLineFeedInFront(a + b)
  {
  }

  /** No line feed stands in front of what is written for safe fields. */
  lemma RowFront(d: char, row: seq<string>, rest: string)
    requires IsDelimiter(d) && (row != [] ==> Safe(d, row[0])) && NoLineFeedInFront(rest)
    ensures NoLineFeedInFront(FormatRow(d, row) + rest)
  {
    if row == [] {
      assert FormatRow(d, row) + rest == rest;
    } else {
      ValueFront(d, row[0]);
      hide FormatValue;
      if |row| == 1 {
        FrontOfJoined(FormatValue(d, row[0]), rest);
      } else {
        RowStep(d, row, rest);
        FrontOfJoined(FormatValue(d, row[0]), [d] + (FormatRow(d, row[1..]) + rest));
      }
    }
  }

  lemma ValueFront(d: char, f: string)
    requires Safe(d, f)
    ensures NoLineFeedInFront(FormatValue(d, f))
  {
    if !NeedsQuotes(d, f) && f != "" { assert f[0] in f; }
  }

  lemma {:induction false} LinesApart(d: char, e: string, rows: seq<seq<string>>)
    requires IsDelimiter(d) && IsLineEnd(e) && forall r :: r in rows ==> forall f :: f in r ==> Safe(d, f)
    ensures Apart(e, Lines(d, e, rows))
  {
    if e == [CR] && rows != [] {
      assert rows[0] in rows && forall f :: f in rows[0] ==> Safe(d, f);
      var rest := if |rows| == 1 then "" else e + Lines(d, e, rows[1..]);
      hide FormatRow, Safe;
      RowFront(d, rows[0], rest);
      assert |rows| == 1 ==> FormatRow(d, rows[0]) + "" == FormatRow(d, rows[0]);
    }
  }

  /** Reading back the first line leaves the text of the other rows. */
  lemma ParseFirstLine(d: char, e: string, rows: seq<seq<string>>)
    requires IsDelimiter(d) && IsLineEnd(e) && |rows| > 1 && rows[0] != [] && (forall f :: f in rows[0] ==> Safe(d, f))
    requires Apart(e, Lines(d, e, rows[1..]))
    ensures Parse(d, Lines(d, e, rows)) == [rows[0]] + Parse(d, Lines(d, e, rows[1..]))
  {
    hide ScanField, FormatRow, Row, Safe, Behind, EndsLine;
    var tail := Lines(d, e, rows[1..]);
    BehindLineEnd(e, tail);
    assert e + tail != "";
    RowRoundTrip(d, rows[0], e + tail);
  }

  lemma {:induction false} SurvivorsRoundTrip(d: char, e: string, rows: seq<seq<string>>)
    requires IsDelimiter(d) && IsLineEnd(e) && Survives(d, rows)
    ensures Parse(d, Lines(d, e, rows)) == rows
  {
    hide ScanField, FormatRow, Row, Safe;
    if rows == [] {
    } else if |rows| == 1 {
      assert rows[0] in rows;
      RowRoundTrip(d, rows[0], "");
      assert FormatRow(d, rows[0]) + "" == Lines(d, e, rows);
      assert [rows[0]] == rows;
    } else {
      assert rows[0] in rows;
      assert forall r :: r in rows[1..] ==> r in rows;
      LinesApart(d, e, rows[1..]);
      ParseFirstLine(d, e, rows);
      SurvivorsRoundTrip(d, e, rows[1..]);
      assert [rows[0]] + rows[1..] == rows;
    }
  }

  lemma {:induction false} ParsedRowsAreNotEmpty(d: char, s: string)
    ensures forall r :: r in Parse(d, s) ==> r != []
    decreases |s|
  {
    if s != "" { ParsedRowsAreNotEmpty(d, Row(d, s).1); }
  }

  /** A single line that does not survive. */
  lemma OneRowDoesNot(d: char, row: seq<string>)
    requires IsDelimiter(d) && row != [] && (forall f :: f in row ==> Safe(d, f)) && row[|row| - 1] == ""
    ensures Parse(d, FormatRow(d, row)) != [row]
  {
    hide ScanField, FormatRow, Safe, Row;
    TrailingEmptyField(d, row);
    if |row| > 1 { assert Parse(d, FormatRow(d, row))[0] == row[..|row| - 1]; }
  }

  // Line feeds are counted to see that a field does not survive of which one is taken for a line end

  function LineFeeds(s: string): nat {
    if s == "" then 0 else (if s[0] == LF then 1 else 0) + LineFeeds(s[1..])
  }

  function RowLineFeeds(row: seq<string>): nat {
    if row == [] then 0 else LineFeeds(row[0]) + RowLineFeeds(row[1..])
  }

  function AllLineFeeds(rows: seq<seq<string>>): nat {
    if rows == [] then 0 else RowLineFeeds(rows[0]) + AllLineFeeds(rows[1..])
  }

  lemma {:induction false} LineFeedsJoin(a: string, b: string)
    ensures LineFeeds(a + b) == LineFeeds(a) + LineFeeds(b)
  {
    if a == "" {
      assert a + b == b;
    } else {
      assert (a + b)[0] == a[0] && (a + b)[1..] == a[1..] + b;
      LineFeedsJoin(a[1..], b);
    }
  }

  lemma LineFeedsOfParts(s: string, i: nat, j: nat)
    requires i <= j <= |s|
    ensures LineFeeds(s[..i]) + LineFeeds(s[j..]) <= LineFeeds(s)
  {
    hide LineFeeds;
    assert s == s[..i] + (s[i..j] + s[j..]);
    LineFeedsJoin(s[..i], s[i..j] + s[j..]);
    LineFeedsJoin(s[i..j], s[j..]);
  }

  lemma {:induction false} UndoubledLineFeeds(s: string)
    ensures LineFeeds(Undoubled(s)) == LineFeeds(s)
    decreases |s|
  {
    if s == "" {
    } else if |s| > 1 && s[0] == QUOTE && s[1] == QUOTE {
      UndoubledLineFeeds(s[2..]);
      assert s[1..][0] == QUOTE && s[1..][1..] == s[2..];
      LineFeedsJoin([QUOTE], Undoubled(s[2..]));
    } else {
      UndoubledLineFeeds(s[1..]);
      LineFeedsJoin([s[0]], Undoubled(s[1..]));
      assert [s[0]] + s[1..] == s;
      LineFeedsJoin([s[0]], s[1..]);
    }
  }

  lemma {:induction false} DoubledLineFeeds(s: string)
    ensures LineFeeds(Doubled(s)) == LineFeeds(s)
  {
    if s != "" {
      DoubledLineFeeds(s[1..]);
      var first := if s[0] == QUOTE then [QUOTE, QUOTE] else [s[0]];
      LineFeedsJoin(first, Doubled(s[1..]));
      assert first[1..] == if s[0] == QUOTE then [QUOTE] else "";
      assert [QUOTE][1..] == "";
    }
  }

  lemma {:induction false} PlainLineFeeds(d: char, s: string, n: nat)
    requires n <= |s|
    ensures var t := ScanPlain(d, s, n); LineFeeds(t.field) + LineFeeds(t.rest) <= LineFeeds(s)
    decreases |s| - n
  {
    if n == |s| {
      LineFeedsOfParts(s, n, n);
      assert s[..n] == s;
    } else if s[n] == LF || s[n] == CR || s[n] == d {
      var j := if s[n] == CR && n + 1 < |s| && s[n + 1] == LF then n + 2 else n + 1;
      LineFeedsOfParts(s, n, j);
    } else {
      PlainLineFeeds(d, s, n + 1);
    }
  }

  lemma FieldLineFeeds(d: char, s: string)
    requires s != ""
    ensures var t := ScanField(d, s); LineFeeds(t.field) + LineFeeds(t.rest) <= LineFeeds(s)
  {
    if s[0] == QUOTE {
      var body := s[1..];
      var k := Closing(body);
      var rest := Drop(body, k + 1);
      UndoubledLineFeeds(body[..k]);
      if k < |body| {
        LineFeedsOfParts(body, k, k + 1);
      } else {
        assert body[..k] == body;
      }
      assert LineFeeds(s) == LineFeeds(body);
      if rest != "" { LineFeedsOfParts(rest, 0, |rest| - |AfterQuote("", rest).rest|); }
    } else {
      PlainLineFeeds(d, s, 0);
    }
  }

  lemma {:induction false} RowTakesLineFeeds(d: char, s: string)
    requires s != ""
    ensures RowLineFeeds(Row(d, s).0) + LineFeeds(Row(d, s).1) <= LineFeeds(s)
    decreases |s|
  {
    FieldLineFeeds(d, s);
    ScanProgress(d, s);
    hide ScanField;
    var t := ScanField(d, s);
    if t.eol || t.rest == "" {
      assert [t.field][1..] == [];
    } else {
      RowTakesLineFeeds(d, t.rest);
      var more := Row(d, t.rest).0;
      assert ([t.field] + more)[1..] == more;
    }
  }

  lemma {:induction false} ParsedLineFeeds(d: char, s: string)
    ensures AllLineFeeds(Parse(d, s)) <= LineFeeds(s)
    decreases |s|
  {
    hide Row;
    if s != "" {
      RowTakesLineFeeds(d, s);
      ParsedLineFeeds(d, Row(d, s).1);
      var more := Parse(d, Row(d, s).1);
      assert ([Row(d, s).0] + more)[1..] == more;
    }
  }

  lemma ValueLineFeeds(d: char, f: string)
    ensures LineFeeds(FormatValue(d, f)) == LineFeeds(f)
  {
    if NeedsQuotes(d, f) {
      DoubledLineFeeds(f);
      LineFeedsJoin([QUOTE], Doubled(f));
      LineFeedsJoin([QUOTE] + Doubled(f), [QUOTE]);
      assert [QUOTE][1..] == "";
    }
  }

  lemma {:induction false} FormattedLineFeeds(d: char, row: seq<string>)
    requires IsDelimiter(d)
    ensures LineFeeds(FormatRow(d, row)) == RowLineFeeds(row)
  {
    hide FormatValue;
    if row != [] {
      ValueLineFeeds(d, row[0]);
      if |row| > 1 {
        FormattedLineFeeds(d, row[1..]);
        LineFeedsJoin(FormatValue(d, row[0]) + [d], FormatRow(d, row[1..]));
        LineFeedsJoin(FormatValue(d, row[0]), [d]);
        assert [d][1..] == "";
      }
    }
  }

  lemma {:induction false} LinesLineFeeds(d: char, rows: seq<seq<string>>)
    requires IsDelimiter(d)
    ensures LineFeeds(Lines(d, [CR], rows)) == LineFeeds(Terminated(d, [CR], rows)) == AllLineFeeds(rows)
  {
    hide FormatRow, RowLineFeeds;
    if rows != [] {
      LinesLineFeeds(d, rows[1..]);
      FormattedLineFeeds(d, rows[0]);
      var text := FormatRow(d, rows[0]);
      assert [CR][1..] == "";
      LineFeedsJoin(text, [CR] + Lines(d, [CR], rows[1..]));
      LineFeedsJoin([CR], Lines(d, [CR], rows[1..]));
      LineFeedsJoin(text, [CR] + Terminated(d, [CR], rows[1..]));
      LineFeedsJoin([CR], Terminated(d, [CR], rows[1..]));
    }
  }

  /** A line feed that is taken for a part of the line end is missed. */
  lemma MissedLineFeed(d: char, row: seq<string>, tail: string, rows: seq<seq<string>>)
    requires IsDelimiter(d) && row != [] && (forall f :: f in row ==> Safe(d, f))
    requires tail != "" && tail[0] == LF && LineFeeds(tail) == AllLineFeeds(rows)
    ensures Parse(d, FormatRow(d, row) + ([CR] + tail)) != [row] + rows
  {
    hide ScanField, FormatRow, Row, Safe, AllLineFeeds;
    var rest := [CR] + tail;
    assert rest != "" && rest[0] == CR && rest[1] == LF && [CR, LF] <= rest;
    assert Behind(rest) == tail[1..];
    RowRoundTrip(d, row, rest);
    var s := FormatRow(d, row) + rest;
    assert Parse(d, s) == [row] + Parse(d, tail[1..]);
    ParsedLineFeeds(d, tail[1..]);
    assert ([row] + Parse(d, tail[1..]))[1..] == Parse(d, tail[1..]);
    assert ([row] + rows)[1..] == rows;
  }

  lemma UnsafeFirstRow(d: char, e: string, rows: seq<seq<string>>, f: string)
    requires IsDelimiter(d) && IsLineEnd(e) && rows != [] && f in rows[0] && !Safe(d, f)
    ensures Parse(d, Lines(d, e, rows)) != rows
  {
    hide ScanField, FormatRow, Safe, Row;
    var rest := if |rows| == 1 then "" else e + Lines(d, e, rows[1..]);
    assert Lines(d, e, rows) == FormatRow(d, rows[0]) + rest;
    UnsafeRow(d, rows[0], rest);
    assert Parse(d, Lines(d, e, rows))[0] == Row(d, Lines(d, e, rows)).0;
  }

  lemma {:induction false} OthersDoNot(d: char, e: string, rows: seq<seq<string>>)
    requires IsDelimiter(d) && IsLineEnd(e)
    requires !Survives(d, rows) && (forall r :: r in rows ==> r != [])
    ensures Parse(d, Lines(d, e, rows)) != rows
  {
    hide ScanField, FormatRow, Safe, Row;
    assert rows[0] in rows;
    if f :| f in rows[0] && !Safe(d, f) {
      UnsafeFirstRow(d, e, rows, f);
    } else if |rows| == 1 {
      assert rows == [rows[0]];
      OneRowDoesNot(d, rows[0]);
    } else if !Apart(e, Lines(d, e, rows[1..])) {
      LinesLineFeeds(d, rows[1..]);
      MissedLineFeed(d, rows[0], Lines(d, e, rows[1..]), rows[1..]);
      assert [rows[0]] + rows[1..] == rows;
    } else {
      ParseFirstLine(d, e, rows);
      assert forall r :: r in rows <==> r == rows[0] || r in rows[1..];
      OthersDoNot(d, e, rows[1..]);
      assert Parse(d, Lines(d, e, rows))[1..] == Parse(d, Lines(d, e, rows[1..]));
    }
  }

  /** Whichever of the three line ends separates the rows, the same tables are read: those without an
      empty row whose fields are all quoted or safe without quotes and whose last field of all is not
      empty, and no others. */
  lemma LinesRoundTrip(d: char, e: string, rows: seq<seq<string>>)
    requires IsDelimiter(d) && IsLineEnd(e)
    ensures Parse(d, Lines(d, e, rows)) == rows <==> Survives(d, rows)
  {
    hide Survives, Lines, Parse;
    if Survives(d, rows) {
      SurvivorsRoundTrip(d, e, rows);
    } else if forall r :: r in rows ==> r != [] {
      OthersDoNot(d, e, rows);
    } else {
      ParsedRowsAreNotEmpty(d, Lines(d, e, rows));
    }
  }

  /** Formatting then parsing gives back a table if and only if no row is empty, every field is
      quoted or safe without quotes, and the last field of all is not empty. */
  lemma RoundTrip(d: char, rows: seq<seq<string>>)
    requires IsDelimiter(d)
    ensures Parse(d, FormatRows(d, rows)) == rows <==> Survives(d, rows)
  {
    FormattedLines(d, rows);
    LinesRoundTrip(d, [LF], rows);
  }

  // Tables with a line end behind every row

  function Terminated(d: char, e: string, rows: seq<seq<string>>): string {
    if rows == [] then "" else FormatRow(d, rows[0]) + (e + Terminated(d, e, rows[1..]))
  }

  predicate AllSafe(d: char, rows: seq<seq<string>>) {
    forall r :: r in rows ==> r != [] && forall f :: f in r ==> Safe(d, f)
  }

  lemma TerminatedApart(d: char, e: string, rows: seq<seq<string>>)
    requires IsDelimiter(d) && IsLineEnd(e) && AllSafe(d, rows)
    ensures Apart(e, Terminated(d, e, rows))
  {
    if e == [CR] && rows != [] {
      assert rows[0] in rows && forall f :: f in rows[0] ==> Safe(d, f);
      hide FormatRow, Safe;
      RowFront(d, rows[0], e + Terminated(d, e, rows[1..]));
    }
  }

  lemma {:induction false} SafeTerminated(d: char, e: string, rows: seq<seq<string>>)
    requires IsDelimiter(d) && IsLineEnd(e) && AllSafe(d, rows)
    ensures Parse(d, Terminated(d, e, rows)) == rows
  {
    hide ScanField, FormatRow, Row, Safe, Behind, EndsLine;
    if rows != [] {
      var tail := Terminated(d, e, rows[1..]);
      assert rows[0] in rows && forall r :: r in rows[1..] ==> r in rows;
      TerminatedApart(d, e, rows[1..]);
      BehindLineEnd(e, tail);
      assert e + tail != "";
      RowRoundTrip(d, rows[0], e + tail);
      SafeTerminated(d, e, rows[1..]);
      assert [rows[0]] + rows[1..] == rows;
    }
  }

  lemma {:induction false} UnsafeTerminated(d: char, e: string, rows: seq<seq<string>>)
    requires IsDelimiter(d) && IsLineEnd(e)
    requires !AllSafe(d, rows) && (forall r :: r in rows ==> r != [])
    ensures Parse(d, Terminated(d, e, rows)) != rows
  {
    hide ScanField, FormatRow, Safe, Row, Behind, EndsLine;
    var s, tail := Terminated(d, e, rows), Terminated(d, e, rows[1..]);
    assert rows[0] in rows;
    LineEndEnds(e, tail);
    if f :| f in rows[0] && !Safe(d, f) {
      UnsafeRow(d, rows[0], e + tail);
      assert Parse(d, s)[0] == Row(d, s).0;
    } else if !Apart(e, tail) {
      LinesLineFeeds(d, rows[1..]);
      MissedLineFeed(d, rows[0], tail, rows[1..]);
      assert [rows[0]] + rows[1..] == rows;
    } else {
      BehindLineEnd(e, tail);
      RowRoundTrip(d, rows[0], e + tail);
      assert Parse(d, s) == [rows[0]] + Parse(d, tail);
      assert forall r :: r in rows <==> r == rows[0] || r in rows[1..];
      UnsafeTerminated(d, e, rows[1..]);
      assert Parse(d, s)[1..] == Parse(d, tail);
    }
  }

  /** With a line end behind every row, an empty field at the very end is kept too. */
  lemma TerminatedRoundTrip(d: char, e: string, rows: seq<seq<string>>)
    requires IsDelimiter(d) && IsLineEnd(e)
    ensures Parse(d, Terminated(d, e, rows)) == rows <==> AllSafe(d, rows)
  {
    hide AllSafe, Terminated, Parse, Safe;
    if AllSafe(d, rows) {
      SafeTerminated(d, e, rows);
    } else if forall r :: r in rows ==> r != [] {
      UnsafeTerminated(d, e, rows);
    } else {
      ParsedRowsAreNotEmpty(d, Terminated(d, e, rows));
    }
  }

  // Texts that the formatter does not write

  /** Any other character behind a closing quote is taken for a delimiter. */
  lemma AnyCharacterBehindQuotes(d: char, f: string, c: char, tail: string)
    requires c != QUOTE && c != LF && c != CR
    ensures ScanField(d, [QUOTE] + Doubled(f) + [QUOTE] + ([c] + tail)) == Scan(f, tail, false)
  {
    hide Undoubled, Doubled, Closing, AfterQuote, ScanField;
    var rest := [c] + tail;
    var body := Doubled(f) + [QUOTE] + rest;
    ClosingOfDoubled(f, rest);
    Around(Doubled(f), rest);
    UndoubledDoubled(f);
    ScanQuoted(d, body);
    AfterQuoteOther(f, c, tail);
    assert [QUOTE] + body == [QUOTE] + Doubled(f) + [QUOTE] + rest;
  }

  lemma AfterQuoteOther(field: string, c: char, tail: string)
    requires c != LF && c != CR
    ensures AfterQuote(field, [c] + tail) == Scan(field, tail, false)
  {
  }

  /** Without a closing quote the field is the rest of the text. */
  lemma UnclosedQuotes(d: char, f: string)
    ensures ScanField(d, [QUOTE] + Doubled(f)) == Scan(f, "", false)
  {
    hide Undoubled, Doubled, Closing, AfterQuote, ScanField;
    var body := Doubled(f);
    NeverClosed(f);
    assert body[..|body|] == body;
    UndoubledDoubled(f);
    ScanQuoted(d, body);
    NothingAfterQuote(f);
  }

  lemma NothingAfterQuote(field: string)
    ensures AfterQuote(field, "") == Scan(field, "", false)
  {
  }

  lemma {:induction false} NeverClosed(s: string)
    ensures Closing(Doubled(s)) == |Doubled(s)|
  {
    if s != "" {
      NeverClosed(s[1..]);
      var t, u := Doubled(s), Doubled(s[1..]);
      if s[0] == QUOTE { assert t[2..] == u; } else { assert t[1..] == u; }
    }
  }

  // What the two delimiters lose that do not mean themselves in the expression

  lemma TripleAtStart(s: string)
    ensures [QUOTE, LF, ']'] <= s ==> |s| >= 3 && s[1] == LF && s[2] == ']'
  {
  }

  lemma {:induction false} NoTriple(s: string)
    requires LF !in s
    ensures !Contains(s, [QUOTE, LF, ']'])
  {
    TripleAtStart(s);
    if s != "" {
      assert forall c :: c in s[1..] ==> c in s;
      NoTriple(s[1..]);
    }
  }

  lemma {:induction false} NoTripleAcross(a: string, b: string)
    requires LF !in a && LF !in b && ']' !in b
    ensures !Contains(a + [LF] + b, [QUOTE, LF, ']'])
  {
    var s := a + [LF] + b;
    TripleAtStart(s);
    assert (|a| > 1 ==> s[1] == a[1]) && (|a| == 1 && b != "" ==> s[2] == b[0]);
    if a == "" {
      NoTriple(b);
      assert s[1..] == b;
    } else {
      assert forall c :: c in a[1..] ==> c in a;
      NoTripleAcross(a[1..], b);
      assert s[1..] == a[1..] + [LF] + b;
    }
  }

  /** A field with the delimiter in it is written like two fields, and two fields are read. */
  lemma DelimiterIsNotQuoted(d: char, a: string, b: string)
    requires d == ']' || (d == '\\' && QUOTE !in a && QUOTE !in b)
    requires Bare(d, a) && Bare(d, b) && b != ""
    ensures FormatRows(d, [[a + [d] + b]]) == FormatRows(d, [[a, b]])
    ensures Parse(d, FormatRows(d, [[a + [d] + b]])) == [[a, b]]
  {
    var s := a + [d] + b;
    assert LF !in s;
    NoTriple(a);
    NoTriple(b);
    NoTriple(s);
    assert [a, b][1..] == [b];
    assert FormatRow(d, [a, b]) == a + [d] + b == FormatRow(d, [s]);
    RoundTrip(d, [[a, b]]);
  }

  /** With a bracket, a field with a line feed in it is written and read like two lines. */
  lemma LineFeedIsNotQuoted(a: string, b: string)
    requires Bare(']', a) && Bare(']', b) && b != ""
    ensures FormatRows(']', [[a + [LF] + b]]) == FormatRows(']', [[a], [b]])
    ensures Parse(']', FormatRows(']', [[a + [LF] + b]])) == [[a], [b]]
  {
    var s := a + [LF] + b;
    NoTriple(a);
    NoTriple(b);
    NoTripleAcross(a, b);
    assert [[a], [b]][1..] == [[b]];
    assert FormatRow(']', [a]) == a && FormatRow(']', [b]) == b && FormatRow(']', [s]) == s;
    assert FormatRows(']', [[a], [b]]) == a + [LF] + b;
    RoundTrip(']', [[a], [b]]);
  }

  /** With a bracket, a field in quotes is written as it is and read without them; a lone quote is
      read as nothing. */
  lemma QuotesAreNotQuoted(a: string)
    requires QUOTE !in a && LF !in a
    ensures Parse(']', FormatRows(']', [[[QUOTE] + a + [QUOTE]]])) == [[a]]
    ensures Parse(']', FormatRows(']', [[[QUOTE]]])) == [[""]]
  {
    var f := [QUOTE] + a + [QUOTE];
    NoTriple(f);
    NoTriple([QUOTE]);
    assert FormatRows(']', [[f]]) == f && FormatRows(']', [[[QUOTE]]]) == [QUOTE];
    DoubledPlain(a);
    assert f + "" == f;
    QuotedFieldRoundTrip(']', a, "");
    assert [QUOTE][1..] == "";
  }

  lemma {:induction false} DoubledPlain(s: string)
    requires QUOTE !in s
    ensures Doubled(s) == s
  {
    if s != "" {
      assert s[0] in s && forall c :: c in s[1..] ==> c in s;
      DoubledPlain(s[1..]);
    }
  }
}
