/** STOMP over WebSocket: frames to text, text in chunks over the socket, and chunks back to
    frames through the partial-data buffer. */
module Stomp {
  import Utf8

  const LF := '\n'
  const NUL := '\0'
  const CONTENT_LENGTH := "content-length"

  // Header values and numbers

  /** The characters `\s` stands for. */
  predicate IsSpace(c: char) {
    || c == ' ' || '\t' <= c <= '\r' || c == '\U{A0}' || c == '\U{1680}' || '\U{2000}' <= c <= '\U{200A}'
    || c == '\U{2028}' || c == '\U{2029}' || c == '\U{202F}' || c == '\U{205F}' || c == '\U{3000}' || c == '\U{FEFF}'
  }

  function TrimLeft(s: string): string {
    if s != "" && IsSpace(s[0]) then TrimLeft(s[1..]) else s
  }

  function TrimRight(s: string): string {
    if s != "" && IsSpace(s[|s| - 1]) then TrimRight(s[..|s| - 1]) else s
  }

  function Trim(s: string): string {
    TrimRight(TrimLeft(s))
  }

  predicate Trimmed(s: string) {
    s != "" ==> !IsSpace(s[0]) && !IsSpace(s[|s| - 1])
  }

  /** `encodeURI(s).match(/%..|./g).length`: one match for every byte. */
  function SizeOfUTF8(s: string): nat {
    if s == "" then 0
    else (if s[0] <= '\U{7F}' then 1 else if s[0] <= '\U{7FF}' then 2 else if s[0] <= '\U{FFFF}' then 3 else 4) + SizeOfUTF8(s[1..])
  }

  lemma {:induction false} SizeCoversLength(s: string)
    ensures |s| <= SizeOfUTF8(s) && (s != "" ==> SizeOfUTF8(s) > 0)
  {
    if s != "" { SizeCoversLength(s[1..]); }
  }

  /** It counts the octets of the text. */
  lemma {:induction false} SizeIsOctets(s: string)
    ensures SizeOfUTF8(s) == |Utf8.Encode(s)|
  {
    if s != "" { SizeIsOctets(s[1..]); }
  }

  function Decimal(n: nat): (s: string)
    ensures s != ""
  {
    (if n < 10 then "" else Decimal(n / 10)) + [(n % 10) as char + '0']
  }

  datatype Number = NaN | Int(value: int)

  /** The value of a digit, or -1. */
  function DigitValue(c: char): int {
    if '0' <= c <= '9' then c as int - '0' as int
    else if 'a' <= c <= 'f' then c as int - 'a' as int + 10
    else if 'A' <= c <= 'F' then c as int - 'A' as int + 10
    else -1
  }

  predicate IsDigit(c: char, radix: nat) {
    0 <= DigitValue(c) < radix
  }

  function LeadingDigits(s: string, radix: nat): (n: nat)
    ensures n <= |s|
  {
    if s != "" && IsDigit(s[0], radix) then 1 + LeadingDigits(s[1..], radix) else 0
  }

  function Value(s: string, radix: nat): int {
    if s == "" then 0 else radix * Value(s[..|s| - 1], radix) + DigitValue(s[|s| - 1])
  }

  function ParseDigits(s: string, radix: nat): Number {
    var n := LeadingDigits(s, radix);
    if n == 0 then NaN else Int(Value(s[..n], radix))
  }

  function Negated(n: Number): Number {
    if n.NaN? then NaN else Int(-n.value)
  }

  function ParseUnsigned(s: string): Number {
    if |s| >= 2 && s[0] == '0' && s[1] in "xX" then ParseDigits(s[2..], 16) else ParseDigits(s, 10)
  }

  /** `parseInt(s)` */
  function ParseInt(s: string): Number {
    var t := TrimLeft(s);
    if t != "" && t[0] == '-' then Negated(ParseUnsigned(t[1..]))
    else if t != "" && t[0] == '+' then ParseUnsigned(t[1..])
    else ParseUnsigned(t)
  }

  lemma {:induction false} DecimalIsDigits(n: nat)
    ensures forall i :: 0 <= i < |Decimal(n)| ==> '0' <= Decimal(n)[i] <= '9'
    ensures Value(Decimal(n), 10) == n
  {
    hide Value, DigitValue;
    var front := if n < 10 then "" else Decimal(n / 10);
    assert Decimal(n) == front + [(n % 10) as char + '0'];
    DigitOf(n % 10);
    ValueOfPush(front, (n % 10) as char + '0');
    if n < 10 { ValueOfNothing(); } else { DecimalIsDigits(n / 10); }
  }

  lemma DigitOf(k: nat)
    requires k < 10
    ensures var c := k as char + '0'; '0' <= c <= '9' && DigitValue(c) == k
  {
  }

  lemma ValueOfPush(s: string, d: char)
    ensures Value(s + [d], 10) == 10 * Value(s, 10) + DigitValue(d)
  {
    assert (s + [d])[..|s|] == s;
  }

  lemma ValueOfNothing()
    ensures Value("", 10) == 0
  {
  }

  lemma {:induction false} AllDigits(s: string)
    requires forall i :: 0 <= i < |s| ==> '0' <= s[i] <= '9'
    ensures LeadingDigits(s, 10) == |s|
  {
    if s != "" { AllDigits(s[1..]); }
  }

  lemma DigitsParse(s: string)
    requires s != "" && forall i :: 0 <= i < |s| ==> '0' <= s[i] <= '9'
    ensures ParseInt(s) == Int(Value(s, 10))
  {
    hide Value;
    AllDigits(s);
    assert s[..|s|] == s;
    assert |s| >= 2 ==> s[1] !in "xX";
  }

  lemma DecimalRoundTrip(n: nat)
    ensures ParseInt(Decimal(n)) == Int(n)
  {
    hide ParseInt;
    DecimalIsDigits(n);
    DigitsParse(Decimal(n));
  }

  // Frames to text

  type Header = (string, string)

  /** A frame to send. Its header names are the property names of an object, so they differ; the
      flag stands for a `content-length` property that is `false`. */
  datatype Frame = Frame(command: string, headers: seq<Header>, skipContentLength: bool, body: string)

  function HeaderLine(h: Header): string {
    h.0 + ":" + h.1
  }

  function HeaderLines(hs: seq<Header>): seq<string> {
    if hs == [] then [] else [HeaderLine(hs[0])] + HeaderLines(hs[1..])
  }

  /** All headers a frame goes out with. */
  function Sent(f: Frame): seq<Header> {
    f.headers + if f.body != "" && !f.skipContentLength then [(CONTENT_LENGTH, Decimal(SizeOfUTF8(f.body)))] else []
  }

  function Join(lines: seq<string>): string {
    if lines == [] then "" else if |lines| == 1 then lines[0] else lines[0] + [LF] + Join(lines[1..])
  }

  function Text(f: Frame): string {
    Join([f.command] + HeaderLines(Sent(f)) + [[LF] + f.body])
  }

  function Marshall(f: Frame): string {
    Text(f) + [NUL]
  }

  // Text to frames

  /** A frame as the receiver sees it. */
  datatype Received = Received(command: string, headers: map<string, string>, body: string)

  /** `s.search(/\n\n/)` */
  function FirstBlank(s: string): (r: int)
    ensures -1 <= r <= |s| - 2 || r == -1
  {
    if |s| < 2 then -1
    else if s[0] == LF && s[1] == LF then 0
    else
      var r := FirstBlank(s[1..]);
      if r < 0 then -1 else r + 1
  }

  /** `s.indexOf(c)` */
  function IndexOf(s: string, c: char): (r: int)
    ensures -1 <= r < |s|
    ensures r >= 0 ==> s[r] == c
    ensures forall i :: 0 <= i < (if r < 0 then |s| else r) ==> s[i] != c
  {
    if s == "" then -1
    else if s[0] == c then 0
    else
      var r := IndexOf(s[1..], c);
      if r < 0 then -1 else r + 1
  }

  function Clamp(s: string, n: Number): (r: nat)
    ensures r <= |s|
  {
    if n.NaN? || n.value < 0 then 0 else if n.value > |s| then |s| else n.value
  }

  /** `s.substring(from, to)` */
  function Substring(s: string, from: Number, to: Number): string {
    var a, b := Clamp(s, from), Clamp(s, to);
    if a <= b then s[a..b] else s[b..a]
  }

  /** `s.split('\n')` */
  function SplitLines(s: string): (r: seq<string>)
    ensures r != []
    decreases |s|
  {
    var i := IndexOf(s, LF);
    if i < 0 then [s] else [s[..i]] + SplitLines(s[i + 1..])
  }

  function HeaderOf(line: string): Header {
    var i := IndexOf(line, ':');
    (Trim(Substring(line, Int(0), Int(i))), Trim(Substring(line, Int(i + 1), Int(|line|))))
  }

  /** Assignment of a string to a property; `__proto__` takes no string. */
  function SetHeader(m: map<string, string>, h: Header): map<string, string> {
    if h.0 == "__proto__" then m else m[h.0 := h.1]
  }

  /** The headers set from the last line to the first, so the first line of a name wins. */
  function ParseHeaders(lines: seq<string>): map<string, string> {
    if lines == [] then map[] else SetHeader(ParseHeaders(lines[1..]), HeaderOf(lines[0]))
  }

  function UntilNul(s: string): string {
    if s == "" || s[0] == NUL then "" else [s[0]] + UntilNul(s[1..])
  }

  function Plus(n: int, m: Number): Number {
    if m.NaN? then NaN else Int(n + m.value)
  }

  function BodyOf(data: string, start: nat, headers: map<string, string>): string {
    if CONTENT_LENGTH in headers && headers[CONTENT_LENGTH] != "" then
      Substring(data, Int(start), Plus(start, ParseInt(headers[CONTENT_LENGTH])))
    else if start <= |data| then UntilNul(data[start..])
    else ""
  }

  function UnmarshallSingle(data: string): Received {
    var divider := FirstBlank(data);
    var lines := SplitLines(Substring(data, Int(0), Int(divider)));
    var headers := ParseHeaders(lines[1..]);
    Received(lines[0], headers, BodyOf(data, divider + 2, headers))
  }

  function LeadingLFs(s: string): (n: nat)
    ensures n <= |s|
  {
    if s != "" && s[0] == LF then 1 + LeadingLFs(s[1..]) else 0
  }

  /** The text split at every NUL, together with the line feeds behind it: the pieces but the
      last, and the last piece. */
  function SplitFrames(s: string): (seq<string>, string)
    decreases |s|
  {
    var i := IndexOf(s, NUL);
    if i < 0 then ([], s)
    else
      var rest := s[i + 1..];
      var more := SplitFrames(rest[LeadingLFs(rest)..]);
      ([s[..i]] + more.0, more.1)
  }

  function UnmarshallEach(pieces: seq<string>): seq<Received> {
    if pieces == [] then [] else [UnmarshallSingle(pieces[0])] + UnmarshallEach(pieces[1..])
  }

  /** The complete frames of a text and the incomplete rest. The last piece has no NUL, so of the
      two tests on it only the one for a lone line feed can succeed. */
  function Unmarshall(data: string): (seq<Received>, string) {
    var split := SplitFrames(data);
    if split.1 == [LF] then (UnmarshallEach(split.0) + [UnmarshallSingle(split.1)], "")
    else (UnmarshallEach(split.0), split.1)
  }

  // One frame there and back

  predicate Plain(s: string) {
    LF !in s && NUL !in s
  }

  predicate GoodHeader(h: Header) {
    && Plain(h.0) && ':' !in h.0 && Trimmed(h.0) && h.0 != CONTENT_LENGTH && h.0 != "__proto__"
    && Plain(h.1) && Trimmed(h.1)
  }

  predicate GoodHeaders(hs: seq<Header>) {
    hs == [] || (GoodHeader(hs[0]) && (forall h :: h in hs[1..] ==> h.0 != hs[0].0) && GoodHeaders(hs[1..]))
  }

  /** What a frame must look like to arrive. */
  predicate Good(f: Frame) {
    f.command != "" && Plain(f.command) && GoodHeaders(f.headers) && NUL !in f.body
  }

  function HeaderMap(hs: seq<Header>): map<string, string> {
    if hs == [] then map[] else HeaderMap(hs[1..])[hs[0].0 := hs[0].1]
  }

  /** What arrives: the same command, headers and body. */
  function Arrived(f: Frame): Received {
    Received(f.command, HeaderMap(Sent(f)), f.body)
  }

  /** A line that is neither empty nor broken. */
  predicate Solid(s: string) {
    s != "" && Plain(s)
  }

  /** No two line feeds in a row, and none at the end. */
  predicate Dense(s: string) {
    s != "" && s[|s| - 1] != LF && forall i :: 0 < i < |s| && s[i - 1] == LF ==> s[i] != LF
  }

  lemma {:induction false} JoinLast(lines: seq<string>, last: string)
    requires lines != []
    ensures Join(lines + [last]) == Join(lines) + [LF] + last
  {
    if |lines| > 1 {
      JoinLast(lines[1..], last);
      assert (lines + [last])[1..] == lines[1..] + [last];
    } else {
      assert (lines + [last])[1..] == [last];
    }
  }

  lemma {:induction false} JoinSolid(lines: seq<string>)
    requires lines != [] && forall l :: l in lines ==> Solid(l)
    ensures Dense(Join(lines)) && NUL !in Join(lines) && Join(lines)[0] != LF
  {
    assert lines[0] in lines;
    if |lines| > 1 {
      assert lines[1] in lines;
      JoinSolid(lines[1..]);
      DenseJoin(lines[0], Join(lines[1..]));
    }
  }

  lemma DenseJoin(a: string, b: string)
    requires Solid(a) && Dense(b) && b[0] != LF
    ensures Dense(a + [LF] + b)
  {
    var s := a + [LF] + b;
    forall i | 0 < i < |s| && s[i - 1] == LF ensures s[i] != LF {
      if i > |a| + 1 { assert s[i - 1] == b[i - |a| - 2] && s[i] == b[i - |a| - 1]; }
    }
    assert s[|s| - 1] == b[|b| - 1];
  }

  lemma {:induction false} BlankBehind(head: string, body: string)
    requires Dense(head)
    ensures FirstBlank(head + [LF, LF] + body) == |head|
  {
    var s := head + [LF, LF] + body;
    if |head| == 1 {
      assert s[1..] == [LF, LF] + body;
    } else {
      assert s[1..] == head[1..] + [LF, LF] + body;
      BlankBehind(head[1..], body);
    }
  }

  lemma IndexAt(s: string, c: char, rest: string)
    requires c !in s
    ensures IndexOf(s + [c] + rest, c) == |s|
    ensures IndexOf(s, c) == -1
  {
    assert (s + [c] + rest)[|s|] == c;
  }

  lemma {:induction false} SplitJoined(lines: seq<string>)
    requires lines != [] && forall l :: l in lines ==> Solid(l)
    ensures SplitLines(Join(lines)) == lines
  {
    assert lines[0] in lines;
    if |lines| == 1 {
      IndexAt(lines[0], LF, "");
    } else {
      IndexAt(lines[0], LF, Join(lines[1..]));
      SplitJoined(lines[1..]);
      assert Join(lines)[..|lines[0]|] == lines[0];
      assert Join(lines)[|lines[0]| + 1..] == Join(lines[1..]);
    }
  }

  lemma TrimmedStays(s: string)
    requires Trimmed(s)
    ensures Trim(s) == s
  {
  }

  lemma HeaderRoundTrip(h: Header)
    requires ':' !in h.0 && Trimmed(h.0) && Trimmed(h.1)
    ensures HeaderOf(HeaderLine(h)) == h
  {
    IndexAt(h.0, ':', h.1);
    var line := HeaderLine(h);
    assert line[0..|h.0|] == h.0 && line[|h.0| + 1..|line|] == h.1;
    TrimmedStays(h.0);
    TrimmedStays(h.1);
  }

  lemma {:induction false} HeadersRoundTrip(hs: seq<Header>)
    requires forall h :: h in hs ==> ':' !in h.0 && Trimmed(h.0) && Trimmed(h.1) && h.0 != "__proto__"
    ensures ParseHeaders(HeaderLines(hs)) == HeaderMap(hs)
  {
    if hs != [] {
      HeadersRoundTrip(hs[1..]);
      HeaderRoundTrip(hs[0]);
      assert HeaderLines(hs)[1..] == HeaderLines(hs[1..]);
    }
  }

  lemma {:induction false} GoodHeaderLines(hs: seq<Header>)
    requires GoodHeaders(hs)
    ensures forall h :: h in hs ==> GoodHeader(h)
    ensures forall l :: l in HeaderLines(hs) ==> Solid(l)
  {
    if hs != [] {
      GoodHeaderLines(hs[1..]);
      LineSolid(hs[0]);
    }
  }

  lemma {:induction false} HeaderLinesLast(hs: seq<Header>, h: Header)
    ensures HeaderLines(hs + [h]) == HeaderLines(hs) + [HeaderLine(h)]
  {
    hide HeaderLine;
    if hs == [] {
      assert hs + [h] == [h] && [h][1..] == [];
    } else {
      HeaderLinesLast(hs[1..], h);
      assert (hs + [h])[1..] == hs[1..] + [h];
    }
  }

  lemma LengthName()
    ensures Solid(CONTENT_LENGTH) && ':' !in CONTENT_LENGTH && Trimmed(CONTENT_LENGTH) && CONTENT_LENGTH != "__proto__"
  {
  }

  lemma DigitsPlain(s: string)
    requires forall i :: 0 <= i < |s| ==> '0' <= s[i] <= '9'
    ensures Plain(s) && Trimmed(s)
  {
  }

  lemma LineSolid(h: Header)
    requires Plain(h.0) && Plain(h.1)
    ensures Solid(HeaderLine(h))
  {
    var line := HeaderLine(h);
    assert line[|h.0|] == ':';
  }

  lemma SolidCommand(f: Frame)
    requires Good(f)
    ensures Solid(f.command) && NUL !in f.body
  {
  }

  /** The lines above the blank one. */
  lemma SentLines(f: Frame)
    requires Good(f)
    ensures forall h :: h in Sent(f) ==> ':' !in h.0 && Trimmed(h.0) && Trimmed(h.1) && h.0 != "__proto__"
    ensures forall l :: l in [f.command] + HeaderLines(Sent(f)) ==> Solid(l)
  {
    hide Solid, Plain, Trimmed, HeaderLine, SizeOfUTF8, Decimal, HeaderLines, GoodHeaders;
    GoodHeaderLines(f.headers);
    SolidCommand(f);
    if f.body != "" && !f.skipContentLength {
      var h := (CONTENT_LENGTH, Decimal(SizeOfUTF8(f.body)));
      DecimalIsDigits(SizeOfUTF8(f.body));
      LengthName();
      DigitsPlain(h.1);
      LineSolid(h);
      HeaderLinesLast(f.headers, h);
    } else {
      assert Sent(f) == f.headers;
    }
  }

  lemma {:induction false} UntilNulAll(s: string)
    requires NUL !in s
    ensures UntilNul(s) == s
  {
    if s != "" {
      assert s[0] in s && forall c :: c in s[1..] ==> c in s;
      UntilNulAll(s[1..]);
    }
  }

  lemma {:induction false} HeaderMapLast(hs: seq<Header>, h: Header)
    requires forall g :: g in hs ==> g.0 != h.0
    ensures HeaderMap(hs + [h]) == HeaderMap(hs)[h.0 := h.1] && h.0 !in HeaderMap(hs)
  {
    if hs == [] {
      assert hs + [h] == [h] && [h][1..] == [];
    } else {
      HeaderMapLast(hs[1..], h);
      assert (hs + [h])[1..] == hs[1..] + [h];
    }
  }

  /** The shape of a marshalled frame: solid lines, a blank one, the body. */
  lemma TextShape(f: Frame)
    requires Good(f)
    ensures var lines := [f.command] + HeaderLines(Sent(f));
            Text(f) == Join(lines) + [LF, LF] + f.body && Dense(Join(lines)) && SplitLines(Join(lines)) == lines
    ensures NUL !in Text(f) && Text(f) != "" && Text(f)[0] != LF
  {
    hide Sent, Solid, HeaderLines, Good, SplitLines, Join, GoodHeaders;
    var lines := [f.command] + HeaderLines(Sent(f));
    SentLines(f);
    SolidCommand(f);
    JoinLast(lines, [LF] + f.body);
    JoinSolid(lines);
    SplitJoined(lines);
    assert Join(lines) + [LF] + ([LF] + f.body) == Join(lines) + [LF, LF] + f.body;
  }

  lemma LengthHeader(f: Frame)
    requires Good(f)
    ensures var m := HeaderMap(Sent(f));
            if f.body != "" && !f.skipContentLength
            then CONTENT_LENGTH in m && m[CONTENT_LENGTH] == Decimal(SizeOfUTF8(f.body))
            else CONTENT_LENGTH !in m
  {
    hide Decimal, SizeOfUTF8;
    GoodHeaderLines(f.headers);
    HeaderMapLast(f.headers, (CONTENT_LENGTH, Decimal(SizeOfUTF8(f.body))));
    assert Sent(f) == f.headers || Sent(f) == f.headers + [(CONTENT_LENGTH, Decimal(SizeOfUTF8(f.body)))];
  }

  lemma BodyArrives(f: Frame, head: string)
    requires Good(f)
    ensures BodyOf(head + [LF, LF] + f.body, |head| + 2, HeaderMap(Sent(f))) == f.body
  {
    hide Decimal, SizeOfUTF8, ParseInt, Sent, HeaderMap;
    var data := head + [LF, LF] + f.body;
    LengthHeader(f);
    assert data[|head| + 2..] == f.body;
    if f.body != "" && !f.skipContentLength {
      DecimalRoundTrip(SizeOfUTF8(f.body));
      SizeCoversLength(f.body);
    } else {
      UntilNulAll(f.body);
    }
  }

  /** What is marshalled is unmarshalled again. */
  lemma FrameRoundTrip(f: Frame)
    requires Good(f)
    ensures UnmarshallSingle(Text(f)) == Arrived(f)
  {
    var lines := [f.command] + HeaderLines(Sent(f));
    var head := Join(lines);
    hide Sent, Solid, HeaderLines, Good, SplitLines, Join, GoodHeaders, Text, BodyOf, FirstBlank, ParseHeaders, Dense, HeaderMap;
    TextShape(f);
    SentLines(f);
    BlankBehind(head, f.body);
    assert Text(f)[0..|head|] == head;
    assert lines[1..] == HeaderLines(Sent(f));
    HeadersRoundTrip(Sent(f));
    BodyArrives(f, head);
  }

  /** What arrives beside the body: the headers of the frame, and the number of octets of the body
      exactly if it has one and the length is not switched off. */
  lemma HeadersThatArrive(f: Frame)
    requires Good(f)
    ensures var m, sized := Arrived(f).headers, f.body != "" && !f.skipContentLength;
      && m.Keys == (set h | h in f.headers :: h.0) + (if sized then {CONTENT_LENGTH} else {})
      && (forall h :: h in f.headers ==> m[h.0] == h.1)
      && (sized ==> ParseInt(m[CONTENT_LENGTH]) == Int(|Utf8.Encode(f.body)|))
  {
    hide Decimal, SizeOfUTF8, ParseInt, HeaderMap, GoodHeader;
    GoodHeaderLines(f.headers);
    NotLength(f.headers);
    DistinctHeaders(f.headers);
    var h := (CONTENT_LENGTH, Decimal(SizeOfUTF8(f.body)));
    HeaderMapLast(f.headers, h);
    SizeIsOctets(f.body);
    DecimalRoundTrip(SizeOfUTF8(f.body));
    assert Sent(f) == f.headers || Sent(f) == f.headers + [h];
  }

  lemma NotLength(hs: seq<Header>)
    requires forall h :: h in hs ==> GoodHeader(h)
    ensures forall h :: h in hs ==> h.0 != CONTENT_LENGTH
  {
  }

  lemma {:induction false} DistinctHeaders(hs: seq<Header>)
    requires GoodHeaders(hs)
    ensures HeaderMap(hs).Keys == set h | h in hs :: h.0
    ensures forall h :: h in hs ==> h.0 in HeaderMap(hs) && HeaderMap(hs)[h.0] == h.1
  {
    hide GoodHeader;
    if hs != [] {
      DistinctHeaders(hs[1..]);
      var m := HeaderMap(hs[1..]);
      forall h | h in hs ensures h.0 in HeaderMap(hs) && HeaderMap(hs)[h.0] == h.1 {
        if h != hs[0] { assert h in hs[1..]; }
      }
      forall k | k in HeaderMap(hs) ensures exists h :: h in hs && h.0 == k {
        if k == hs[0].0 {
          assert hs[0] in hs;
        } else {
          assert k in m;
          var h :| h in hs[1..] && h.0 == k;
          assert h in hs;
        }
      }
    }
  }

  /** A receiver that counts octets, as STOMP asks for: behind the blank line come exactly the announced
      number of octets, they are the body, and the null octet follows. */
  lemma OctetsOfTheBody(f: Frame)
    requires Good(f) && f.body != "" && !f.skipContentLength
    ensures var text := Marshall(f);
      && 0 <= FirstBlank(text) <= |text| - 2
      && Utf8.Encode(text) == Utf8.Encode(text[..FirstBlank(text) + 2]) + Utf8.Encode(f.body) + [0]
      && CONTENT_LENGTH in Arrived(f).headers
      && ParseInt(Arrived(f).headers[CONTENT_LENGTH]) == Int(|Utf8.Encode(f.body)|)
  {
    var lines := [f.command] + HeaderLines(Sent(f));
    var head := Join(lines);
    hide Sent, HeaderLines, Good, SplitLines, Join, FirstBlank, Dense, Utf8.Encode, ParseInt, HeaderMap, Text;
    HeadersThatArrive(f);
    TextShape(f);
    var text := Marshall(f);
    assert text == head + [LF, LF] + (f.body + [NUL]) == head + [LF, LF] + f.body + [NUL];
    BlankBehind(head, f.body + [NUL]);
    assert text[..|head| + 2] == head + [LF, LF];
    Utf8.EncodeJoin(head + [LF, LF], f.body);
    Utf8.EncodeJoin(head + [LF, LF] + f.body, [NUL]);
    OctetOfNul();
  }

  lemma OctetOfNul()
    ensures Utf8.Encode([NUL]) == [0]
  {
    assert [NUL][1..] == "" && Utf8.EncodeChar(NUL) == [0];
  }

  // What is received from others

  lemma {:induction false} AfterLineFeeds(s: string)
    ensures var rest := s[LeadingLFs(s)..]; rest == "" || rest[0] != LF
  {
    if s != "" && s[0] == LF {
      AfterLineFeeds(s[1..]);
      assert s[LeadingLFs(s)..] == s[1..][LeadingLFs(s[1..])..];
    }
  }

  /** Line feeds behind a null character go with it, so a rest that is a lone line feed is all there is,
      and it makes an empty frame. */
  lemma {:induction false} LoneLineFeed(s: string)
    ensures SplitFrames(s).1 == [LF] <==> s == [LF]
    ensures Unmarshall([LF]) == ([Received("", map[], "")], "")
    decreases |s|
  {
    var i := IndexOf(s, NUL);
    if i >= 0 {
      var rest := s[i + 1..];
      AfterLineFeeds(rest);
      LoneLineFeed(rest[LeadingLFs(rest)..]);
      hide SplitFrames;
      SplitStep(s, i, rest[LeadingLFs(rest)..]);
      OnlyLineFeed();
    } else {
      OnlyLineFeed();
    }
  }

  lemma OnlyLineFeed()
    ensures Unmarshall([LF]) == ([Received("", map[], "")], "")
  {
    SplitNothing([LF]);
    NoBlankInOne();
    assert SplitLines("") == [""];
    assert UnmarshallSingle([LF]) == Received("", map[], "");
    hide UnmarshallSingle, SplitFrames;
    assert UnmarshallEach([]) + [UnmarshallSingle([LF])] == [UnmarshallSingle([LF])];
  }

  lemma NoBlankInOne()
    ensures FirstBlank([LF]) == -1 && Substring([LF], Int(0), Int(-1)) == ""
  {
  }

  predicate Spaces(s: string) {
    forall c :: c in s ==> IsSpace(c)
  }

  const SPACES: string := "\t\n\U{B}\U{C}\r \U{A0}\U{1680}\U{2000}\U{2001}\U{2002}\U{2003}\U{2004}\U{2005}\U{2006}\U{2007}\U{2008}\U{2009}\U{200A}\U{2028}\U{2029}\U{202F}\U{205F}\U{3000}\U{FEFF}"
  const HEX_DIGITS: string := "0123456789abcdef"
  const UPPER_HEX_DIGITS: string := "0123456789ABCDEF"

  /** The white space and the line ends of ECMAScript. */
  lemma SpacesAre(c: char)
    ensures IsSpace(c) <==> c in SPACES
  {
  }

  /** The digits of both radixes and their values. */
  lemma DigitsAre(c: char, k: nat)
    ensures IsDigit(c, 16) && DigitValue(c) == k <==> k < 16 && (c == HEX_DIGITS[k] || c == UPPER_HEX_DIGITS[k])
    ensures IsDigit(c, 10) && DigitValue(c) == k <==> k < 10 && c == HEX_DIGITS[k]
  {
  }

  lemma {:induction false} TrimLeftSpaces(a: string, s: string)
    requires Spaces(a)
    ensures TrimLeft(a + s) == TrimLeft(s)
  {
    if a == "" {
      assert a + s == s;
    } else {
      assert a[0] in a && forall c :: c in a[1..] ==> c in a;
      assert (a + s)[1..] == a[1..] + s;
      TrimLeftSpaces(a[1..], s);
    }
  }

  lemma {:induction false} TrimRightSpaces(s: string, b: string)
    requires Spaces(b)
    ensures TrimRight(s + b) == TrimRight(s)
  {
    if b == "" {
      assert s + b == s;
    } else {
      var n := |b| - 1;
      assert b[n] in b && forall c :: c in b[..n] ==> c in b;
      assert (s + b)[..|s + b| - 1] == s + b[..n];
      TrimRightSpaces(s, b[..n]);
    }
  }

  /** Spaces around a text are trimmed, and nothing else. */
  lemma TrimAround(a: string, s: string, b: string)
    requires Spaces(a) && Trimmed(s) && Spaces(b)
    ensures Trim(a + s + b) == s
  {
    hide IsSpace;
    assert a + s + b == a + (s + b);
    TrimLeftSpaces(a, s + b);
    if s == "" {
      assert s + b == b && b + "" == b;
      TrimLeftSpaces(b, "");
    } else {
      assert (s + b)[0] == s[0];
      TrimRightSpaces(s, b);
    }
  }

  /** A header line is read with any spaces around its name and its value. */
  lemma SpacedHeader(a: string, name: string, b: string, c: string, value: string, d: string)
    requires Spaces(a) && Spaces(b) && Spaces(c) && Spaces(d) && Trimmed(name) && Trimmed(value) && ':' !in name
    ensures HeaderOf(a + name + b + ":" + (c + value + d)) == (name, value)
  {
    hide Trim, HeaderOf, Trimmed, Spaces;
    SpacesHaveNoColon(a);
    SpacesHaveNoColon(b);
    HeaderAtColon(a + name + b, c + value + d);
    TrimAround(a, name, b);
    TrimAround(c, value, d);
  }

  lemma SpacesHaveNoColon(a: string)
    requires Spaces(a)
    ensures ':' !in a
  {
    assert !IsSpace(':');
  }

  lemma HeaderAtColon(left: string, right: string)
    requires ':' !in left
    ensures HeaderOf(left + ":" + right) == (Trim(left), Trim(right))
  {
    hide Trim;
    IndexAt(left, ':', right);
    var line := left + ":" + right;
    assert line[0..|left|] == left && line[|left| + 1..|line|] == right;
  }

  /** Of lines with one name the first one counts. */
  lemma {:induction false} FirstHeaderWins(lines: seq<string>, i: nat)
    requires i < |lines| && HeaderOf(lines[i]).0 != "__proto__"
    requires forall j :: 0 <= j < i ==> HeaderOf(lines[j]).0 != HeaderOf(lines[i]).0
    ensures HeaderOf(lines[i]).0 in ParseHeaders(lines) && ParseHeaders(lines)[HeaderOf(lines[i]).0] == HeaderOf(lines[i]).1
  {
    hide HeaderOf;
    if i > 0 {
      assert forall j :: 0 <= j < i - 1 ==> lines[1..][j] == lines[j + 1];
      FirstHeaderWins(lines[1..], i - 1);
    }
  }

  lemma {:induction false} NoOtherHeaders(lines: seq<string>, name: string)
    requires name in ParseHeaders(lines)
    ensures name != "__proto__" && exists i :: 0 <= i < |lines| && HeaderOf(lines[i]).0 == name
  {
    hide HeaderOf;
    if name in ParseHeaders(lines[1..]) {
      NoOtherHeaders(lines[1..], name);
      var i :| 0 <= i < |lines[1..]| && HeaderOf(lines[1..][i]).0 == name;
      assert HeaderOf(lines[i + 1]).0 == name;
    }
  }

  /** A number is read behind spaces and a sign, and as far as its digits go. */
  lemma NumberInFront(a: string, n: nat, rest: string)
    requires Spaces(a) && (rest != "" ==> !IsDigit(rest[0], 10) && rest[0] !in "xX")
    ensures ParseInt(a + (Decimal(n) + rest)) == Int(n)
    ensures ParseInt(a + ("-" + (Decimal(n) + rest))) == Int(-(n as int))
    ensures ParseInt(a + ("+" + (Decimal(n) + rest))) == Int(n)
  {
    hide Decimal, IsSpace, ParseUnsigned, DigitValue;
    var t := Decimal(n) + rest;
    DecimalIsDigits(n);
    UnsignedInFront(Decimal(n), rest);
    assert t[0] == Decimal(n)[0];
    Unspaced(t);
    TrimLeftSpaces(a, t);
    TrimLeftSpaces(a, "-" + t);
    TrimLeftSpaces(a, "+" + t);
    assert ("-" + t)[1..] == t && ("+" + t)[1..] == t;
  }

  lemma Unspaced(t: string)
    requires t != "" && '0' <= t[0] <= '9'
    ensures TrimLeft(t) == t && TrimLeft("-" + t) == "-" + t && TrimLeft("+" + t) == "+" + t
  {
  }

  lemma UnsignedInFront(ds: string, rest: string)
    requires ds != "" && (forall i :: 0 <= i < |ds| ==> '0' <= ds[i] <= '9')
    requires rest != "" ==> !IsDigit(rest[0], 10) && rest[0] !in "xX"
    ensures ParseUnsigned(ds + rest) == Int(Value(ds, 10))
  {
    hide Value;
    DigitsInFront(ds, rest);
    assert (ds + rest)[..|ds|] == ds;
    assert |ds + rest| >= 2 ==> (ds + rest)[1] == if |ds| > 1 then ds[1] else rest[0];
  }

  lemma {:induction false} DigitsInFront(ds: string, rest: string)
    requires (forall i :: 0 <= i < |ds| ==> '0' <= ds[i] <= '9') && (rest != "" ==> !IsDigit(rest[0], 10))
    ensures LeadingDigits(ds + rest, 10) == |ds|
  {
    if ds == "" {
      assert ds + rest == rest;
    } else {
      assert (ds + rest)[0] == ds[0] && (ds + rest)[1..] == ds[1..] + rest;
      DigitsInFront(ds[1..], rest);
    }
  }

  predicate Digits(s: string, radix: nat) {
    forall i :: 0 <= i < |s| ==> IsDigit(s[i], radix)
  }

  lemma {:induction false} LeadingOnes(ds: string, rest: string, radix: nat)
    requires Digits(ds, radix) && (rest != "" ==> !IsDigit(rest[0], radix))
    ensures LeadingDigits(ds + rest, radix) == |ds|
  {
    hide IsDigit;
    if ds == "" {
      assert ds + rest == rest;
    } else {
      assert (ds + rest)[0] == ds[0] && (ds + rest)[1..] == ds[1..] + rest;
      LeadingOnes(ds[1..], rest, radix);
    }
  }

  /** Behind `0x` a number is hexadecimal, if there is any digit. */
  lemma HexadecimalInFront(a: string, x: char, ds: string, rest: string)
    requires Spaces(a) && x in "xX" && Digits(ds, 16) && (rest != "" ==> !IsDigit(rest[0], 16))
    ensures ParseInt(a + (['0', x] + (ds + rest))) == if ds == "" then NaN else Int(Value(ds, 16))
  {
    hide Value, IsDigit, DigitValue, IsSpace;
    var t := ['0', x] + (ds + rest);
    assert t[2..] == ds + rest;
    LeadingOnes(ds, rest, 16);
    assert (ds + rest)[..|ds|] == ds;
    Unspaced(t);
    TrimLeftSpaces(a, t);
  }

  lemma ZeroIsDigit()
    ensures IsDigit('0', 10)
  {
  }

  /** A text that begins neither with a digit nor with a sign is no number. */
  lemma NotANumber(a: string, t: string)
    requires Spaces(a) && (t == "" || (!IsSpace(t[0]) && !IsDigit(t[0], 10) && t[0] !in "+-"))
    ensures ParseInt(a + t).NaN?
  {
    hide IsDigit, IsSpace;
    ZeroIsDigit();
    TrimLeftSpaces(a, t);
  }

  /** The body that a length announces: so many characters as there are; a length that is no number gives
      the text above the body instead, and a negative one its end. */
  lemma BodyOfLength(data: string, start: nat, headers: map<string, string>)
    requires start <= |data| && CONTENT_LENGTH in headers && headers[CONTENT_LENGTH] != ""
    ensures BodyOf(data, start, headers) ==
      match ParseInt(headers[CONTENT_LENGTH])
      case NaN => data[..start]
      case Int(n) =>
        if n >= 0 then data[start..if start + n <= |data| then start + n else |data|]
        else data[if start + n >= 0 then start + n else 0..start]
  {
    hide ParseInt;
  }

  // Many frames in chunks

  /** What `_transmit` hands to the socket for one marshalled frame. */
  function Chunks(out: string, max: nat): seq<string>
    requires max > 0
    decreases |out|
  {
    if |out| > max then [out[..max]] + Chunks(out[max..], max) else [out]
  }

  function TransmitAll(frames: seq<Frame>, max: nat): seq<string>
    requires max > 0
  {
    if frames == [] then [] else Chunks(Marshall(frames[0]), max) + TransmitAll(frames[1..], max)
  }

  /** What `onmessage` does with one chunk: a lone line feed is a heart-beat. */
  function Receive(partial: string, data: string): (seq<Received>, string) {
    if data == [LF] then ([], partial) else Unmarshall(partial + data)
  }

  function ReceiveAll(partial: string, chunks: seq<string>): (seq<Received>, string)
    decreases |chunks|
  {
    if chunks == [] then ([], partial)
    else
      var first := Receive(partial, chunks[0]);
      var more := ReceiveAll(first.1, chunks[1..]);
      (first.0 + more.0, more.1)
  }

  predicate AllGood(frames: seq<Frame>) {
    forall f :: f in frames ==> Good(f)
  }

  function AllArrived(frames: seq<Frame>): seq<Received> {
    if frames == [] then [] else [Arrived(frames[0])] + AllArrived(frames[1..])
  }

  function Stream(frames: seq<Frame>): string {
    if frames == [] then "" else Marshall(frames[0]) + Stream(frames[1..])
  }

  function Concat<T>(chunks: seq<seq<T>>): seq<T> {
    if chunks == [] then [] else chunks[0] + Concat(chunks[1..])
  }

  lemma SplitNothing(s: string)
    requires NUL !in s
    ensures SplitFrames(s) == ([], s)
  {
    IndexAt(s, NUL, "");
  }

  /** `n` line feeds. */
  function LineFeeds(n: nat): (r: string)
    ensures |r| == n && forall i :: 0 <= i < n ==> r[i] == LF
  {
    seq(n, _ => LF)
  }

  lemma {:induction false} LeadingPadding(n: nat, rest: string)
    requires rest != "" ==> rest[0] != LF
    ensures LeadingLFs(LineFeeds(n) + rest) == n
  {
    if n > 0 {
      assert (LineFeeds(n) + rest)[1..] == LineFeeds(n - 1) + rest;
      LeadingPadding(n - 1, rest);
    } else {
      assert LineFeeds(0) + rest == rest;
    }
  }

  /** The split takes one frame off, and the line feeds behind it. */
  lemma SplitOne(text: string, n: nat, rest: string)
    requires NUL !in text && (rest != "" ==> rest[0] != LF)
    ensures SplitFrames(text + [NUL] + LineFeeds(n) + rest) == ([text] + SplitFrames(rest).0, SplitFrames(rest).1)
  {
    var s := text + [NUL] + LineFeeds(n) + rest;
    assert s == text + [NUL] + (LineFeeds(n) + rest);
    IndexAt(text, NUL, LineFeeds(n) + rest);
    assert s[..|text|] == text && s[|text| + 1..] == LineFeeds(n) + rest;
    LeadingPadding(n, rest);
    assert (LineFeeds(n) + rest)[n..] == rest;
  }

  lemma UnmarshallOne(text: string, n: nat, rest: string)
    requires NUL !in text && (rest != "" ==> rest[0] != LF)
    ensures Unmarshall(text + [NUL] + LineFeeds(n) + rest) == ([UnmarshallSingle(text)] + Unmarshall(rest).0, Unmarshall(rest).1)
  {
    hide UnmarshallSingle, SplitFrames;
    SplitOne(text, n, rest);
    var split := SplitFrames(rest);
    assert ([text] + split.0)[1..] == split.0;
    assert [UnmarshallSingle(text)] + UnmarshallEach(split.0) + [UnmarshallSingle(split.1)]
        == [UnmarshallSingle(text)] + (UnmarshallEach(split.0) + [UnmarshallSingle(split.1)]);
  }

  lemma UnmarshallNothing(s: string)
    requires NUL !in s && s != [LF]
    ensures Unmarshall(s) == ([], s)
  {
    SplitNothing(s);
  }

  lemma Assoc<T>(a: seq<T>, b: seq<T>, c: seq<T>)
    ensures a + (b + c) == a + b + c
  {
  }

  lemma {:induction false} ChunksJoin(out: string, max: nat)
    requires max > 0
    ensures Concat(Chunks(out, max)) == out
    ensures forall c :: c in Chunks(out, max) ==> |c| <= max
    decreases |out|
  {
    if |out| > max {
      ChunksJoin(out[max..], max);
      assert ([out[..max]] + Chunks(out[max..], max))[1..] == Chunks(out[max..], max);
    }
  }

  lemma {:induction false} ChunksLive(out: string, max: nat)
    requires max >= 2 && out != "" && out[|out| - 1] != LF
    ensures forall c :: c in Chunks(out, max) ==> c != [LF]
    decreases |out|
  {
    if |out| > max { ChunksLive(out[max..], max); }
  }

  lemma {:induction false} ConcatParts(a: seq<string>, b: seq<string>)
    ensures Concat(a + b) == Concat(a) + Concat(b)
  {
    if a == [] {
      assert a + b == b;
    } else {
      ConcatParts(a[1..], b);
      assert (a + b)[1..] == a[1..] + b;
      Assoc(a[0], Concat(a[1..]), Concat(b));
    }
  }

  lemma {:induction false} TransmitJoin(frames: seq<Frame>, max: nat)
    requires max > 0
    ensures Concat(TransmitAll(frames, max)) == Stream(frames)
    ensures forall c :: c in TransmitAll(frames, max) ==> |c| <= max
    ensures max >= 2 ==> forall c :: c in TransmitAll(frames, max) ==> c != [LF]
  {
    hide Text;
    if frames != [] {
      TransmitJoin(frames[1..], max);
      ChunksJoin(Marshall(frames[0]), max);
      if max >= 2 { ChunksLive(Marshall(frames[0]), max); }
      ConcatParts(Chunks(Marshall(frames[0]), max), TransmitAll(frames[1..], max));
    }
  }

  lemma {:induction false} NoBlank(s: string)
    requires LF !in s
    ensures FirstBlank(s) == -1
  {
    if |s| >= 2 {
      assert s[0] in s;
      assert forall c :: c in s[1..] ==> c in s;
      NoBlank(s[1..]);
    }
  }

  /** Without line feeds there is no command. */
  lemma NoCommand(s: string)
    requires LF !in s
    ensures UnmarshallSingle(s).command == ""
  {
    NoBlank(s);
    assert Substring(s, Int(0), Int(-1)) == "";
  }

  predicate Nameless(rs: seq<Received>) {
    forall r :: r in rs ==> r.command == ""
  }

  lemma Sections(s: string, i: nat)
    requires LF !in s && i <= |s|
    ensures LF !in s[..i] && LF !in s[i..]
  {
  }

  lemma SplitStep(s: string, i: nat, next: string)
    requires IndexOf(s, NUL) == i && next == s[i + 1..][LeadingLFs(s[i + 1..])..]
    ensures SplitFrames(s) == ([s[..i]] + SplitFrames(next).0, SplitFrames(next).1)
  {
  }

  lemma {:induction false} NoCommands(s: string)
    requires LF !in s
    ensures forall p :: p in SplitFrames(s).0 ==> LF !in p
    ensures LF !in SplitFrames(s).1
    decreases |s|
  {
    var i := IndexOf(s, NUL);
    if i >= 0 {
      var rest := s[i + 1..];
      Sections(s, i);
      Sections(s, i + 1);
      Sections(rest, LeadingLFs(rest));
      var next := rest[LeadingLFs(rest)..];
      NoCommands(next);
      hide SplitFrames;
      SplitStep(s, i, next);
    }
  }

  lemma {:induction false} EachNameless(pieces: seq<string>)
    requires forall p :: p in pieces ==> LF !in p
    ensures Nameless(UnmarshallEach(pieces))
  {
    hide UnmarshallSingle;
    if pieces != [] {
      NoCommand(pieces[0]);
      EachNameless(pieces[1..]);
    }
  }

  lemma {:induction false} ReceiveNameless(partial: string, chunks: seq<string>)
    requires LF !in partial && forall c :: c in chunks ==> |c| <= 1
    ensures Nameless(ReceiveAll(partial, chunks).0)
    decreases |chunks|
  {
    hide UnmarshallSingle, SplitFrames, UnmarshallEach;
    if chunks != [] {
      var c := chunks[0];
      assert c in chunks;
      if c != [LF] {
        var data := partial + c;
        NoCommands(data);
        EachNameless(SplitFrames(data).0);
      }
      ReceiveNameless(Receive(partial, c).1, chunks[1..]);
    }
  }

  lemma ArrivedCommand(f: Frame)
    ensures Arrived(f).command == f.command
  {
  }

  // The loops

  lemma {:induction false} HeaderLinesTake(hs: seq<Header>, i: nat)
    requires i < |hs|
    ensures HeaderLines(hs[..i + 1]) == HeaderLines(hs[..i]) + [HeaderLine(hs[i])]
  {
    assert hs[..i + 1] == hs[..i] + [hs[i]];
    HeaderLinesLast(hs[..i], hs[i]);
  }

  /** `Frame.toString`: collects the lines one by one. */
  method ToString(f: Frame) returns (s: string)
    ensures s == Text(f)
  {
    hide HeaderLine, HeaderLines, Join, Decimal, SizeOfUTF8;
    var lines := [f.command];
    assert HeaderLines(f.headers[..0]) == [] by { NoLines(f.headers[..0]); }
    for i := 0 to |f.headers|
      invariant lines == [f.command] + HeaderLines(f.headers[..i])
    {
      HeaderLinesTake(f.headers, i);
      lines := lines + [f.headers[i].0 + ":" + f.headers[i].1];
      assert HeaderLine(f.headers[i]) == f.headers[i].0 + ":" + f.headers[i].1 by { LineOf(f.headers[i]); }
    }
    assert f.headers[..|f.headers|] == f.headers;
    if f.body != "" && !f.skipContentLength {
      var size := Decimal(SizeOfUTF8(f.body));
      lines := lines + [CONTENT_LENGTH + ":" + size];
      LineOf((CONTENT_LENGTH, size));
      HeaderLinesLast(f.headers, (CONTENT_LENGTH, size));
      Assoc([f.command], HeaderLines(f.headers), [CONTENT_LENGTH + ":" + size]);
    }
    assert Sent(f) == f.headers || Sent(f) == f.headers + [(CONTENT_LENGTH, Decimal(SizeOfUTF8(f.body)))];
    lines := lines + [[LF] + f.body];
    s := Join(lines);
  }

  lemma NoLines(hs: seq<Header>)
    requires hs == []
    ensures HeaderLines(hs) == []
  {
  }

  lemma LineOf(h: Header)
    ensures HeaderLine(h) == h.0 + ":" + h.1
  {
  }

  lemma {:induction false} UntilNulStep(s: string, i: nat)
    requires i <= |s| && NUL !in s[..i]
    ensures UntilNul(s) == s[..i] + UntilNul(s[i..])
  {
    if i > 0 {
      assert s[..i][0] in s[..i] && forall c :: c in s[1..][..i - 1] ==> c in s[..i];
      UntilNulStep(s[1..], i - 1);
      assert s[1..][..i - 1] == s[1..i] && s[1..][i - 1..] == s[i..];
    }
  }

  /** The loop for a body without a length. */
  method CollectBody(data: string, start: nat) returns (body: string)
    ensures body == if start <= |data| then UntilNul(data[start..]) else ""
  {
    body := "";
    var i := start;
    while i < |data| && data[i] != NUL
      invariant start <= |data| ==> i <= |data| && body == data[start..i] && NUL !in data[start..i]
      invariant start > |data| ==> body == "" && i == start
    {
      body := body + [data[i]];
      i := i + 1;
    }
    if start <= |data| {
      assert data[start..][..i - start] == data[start..i];
      UntilNulStep(data[start..], i - start);
      assert data[start..][i - start..] == data[i..];
    }
  }

  /** `unmarshallSingle`: header lines from the last to the first, then the body. */
  method ParseSingle(data: string) returns (frame: Received)
    ensures frame == UnmarshallSingle(data)
  {
    hide HeaderOf, SplitLines, Substring, ParseInt, FirstBlank;
    var divider := FirstBlank(data);
    var headerLines := SplitLines(Substring(data, Int(0), Int(divider)));
    var command := headerLines[0];
    headerLines := headerLines[1..];
    var headers: map<string, string> := map[];
    for i := |headerLines| downto 0
      invariant headers == ParseHeaders(headerLines[i..])
    {
      assert headerLines[i..][1..] == headerLines[i + 1..];
      headers := SetHeader(headers, HeaderOf(headerLines[i]));
    }
    assert headerLines[0..] == headerLines;
    var body := "";
    var start := divider + 2;
    if CONTENT_LENGTH in headers && headers[CONTENT_LENGTH] != "" {
      var len := ParseInt(headers[CONTENT_LENGTH]);
      body := Substring(data, Int(start), Plus(start, len));
    } else {
      body := CollectBody(data, start);
    }
    frame := Received(command, headers, body);
  }

  /** The client: one side sends, the other side receives. */
  class Client {
    const maxWebSocketFrameSize: nat
    var partialData: string
    var socket: seq<string>   // what was handed to the web socket

    constructor (max: nat)
      requires max > 0
      ensures maxWebSocketFrameSize == max && partialData == "" && socket == []
    {
      maxWebSocketFrameSize, partialData, socket := max, "", [];
    }

    /** `_transmit` */
    method Transmit(f: Frame)
      requires maxWebSocketFrameSize > 0
      modifies `socket
      ensures socket == old(socket) + Chunks(Marshall(f), maxWebSocketFrameSize)
    {
      hide Text;
      var text := ToString(f);
      var out := text + [NUL];
      while |out| > maxWebSocketFrameSize
        invariant socket + Chunks(out, maxWebSocketFrameSize) == old(socket) + Chunks(Marshall(f), maxWebSocketFrameSize)
        decreases |out|
      {
        var first := out[..maxWebSocketFrameSize];
        var rest := out[maxWebSocketFrameSize..];
        Assoc(socket, [first], Chunks(rest, maxWebSocketFrameSize));
        socket := socket + [first];
        out := rest;
      }
      socket := socket + [out];
    }

    /** `onmessage`, up to the dispatch of the frames. */
    method OnMessage(data: string) returns (frames: seq<Received>)
      modifies `partialData
      ensures (frames, partialData) == Receive(old(partialData), data)
    {
      hide UnmarshallSingle, SplitFrames;
      frames := [];
      if data == [LF] { return; }
      var pieces, last := SplitFrames(partialData + data).0, SplitFrames(partialData + data).1;
      for i := 0 to |pieces|
        invariant frames == UnmarshallEach(pieces[..i])
      {
        var frame := ParseSingle(pieces[i]);
        EachLast(pieces[..i], pieces[i]);
        assert pieces[..i] + [pieces[i]] == pieces[..i + 1];
        frames := frames + [frame];
      }
      assert pieces[..|pieces|] == pieces;
      if last == [LF] {
        var frame := ParseSingle(last);
        frames := frames + [frame];
        partialData := "";
      } else {
        partialData := last;
      }
    }
  }

  lemma {:induction false} EachLast(pieces: seq<string>, p: string)
    ensures UnmarshallEach(pieces + [p]) == UnmarshallEach(pieces) + [UnmarshallSingle(p)]
  {
    hide UnmarshallSingle;
    if pieces == [] {
      assert pieces + [p] == [p] && [p][1..] == [];
    } else {
      EachLast(pieces[1..], p);
      assert (pieces + [p])[1..] == pieces[1..] + [p];
    }
  }
}
