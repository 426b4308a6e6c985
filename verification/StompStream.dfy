/** A stream of STOMP frames with line feeds in front of and behind them, cut into messages
    anywhere: when do all frames arrive? The receiver drops a message that is a lone line feed as
    a heart-beat and otherwise skips line feeds only where they follow a NUL in the same data. */
module StompStream {
  import opened Stomp

  // Padded streams

  /** A character of the stream, and whether it is padding. */
  type Tagged = (char, bool)

  function Ink(s: string): (r: seq<Tagged>)
    ensures |r| == |s| && forall i :: 0 <= i < |s| ==> r[i] == (s[i], false)
  {
    seq(|s|, i requires 0 <= i < |s| => (s[i], false))
  }

  function Pads(n: nat): (r: seq<Tagged>)
    ensures |r| == n && forall i :: 0 <= i < n ==> r[i] == (LF, true)
  {
    seq(n, _ => (LF, true))
  }

  /** The text itself. */
  function Erase(t: seq<Tagged>): (r: string)
    ensures |r| == |t| && forall i :: 0 <= i < |t| ==> r[i] == t[i].0
  {
    seq(|t|, i requires 0 <= i < |t| => t[i].0)
  }

  function EraseEach(chunks: seq<seq<Tagged>>): seq<string> {
    if chunks == [] then [] else [Erase(chunks[0])] + EraseEach(chunks[1..])
  }

  /** A frame, and how many line feeds follow it. */
  type Part = (Frame, nat)

  function Padded(lead: nat, parts: seq<Part>): seq<Tagged>
    decreases |parts|
  {
    Pads(lead) + if parts == [] then [] else Ink(Marshall(parts[0].0)) + Padded(parts[0].1, parts[1..])
  }

  predicate GoodParts(parts: seq<Part>) {
    forall q :: q in parts ==> Good(q.0)
  }

  function Delivered(parts: seq<Part>): seq<Received> {
    if parts == [] then [] else [Arrived(parts[0].0)] + Delivered(parts[1..])
  }

  /** A message is fine if it is a lone line feed exactly when it begins with padding. */
  predicate Fine(chunk: seq<Tagged>) {
    chunk != [] ==> (Erase(chunk) == [LF] <==> chunk[0].1)
  }

  lemma InkOff(lead: nat, parts: seq<Part>)
    requires lead == 0 && parts != []
    ensures Padded(lead, parts) == Ink(Text(parts[0].0) + [NUL]) + Padded(parts[0].1, parts[1..])
  {
    hide Text;
    var rest := Ink(Marshall(parts[0].0)) + Padded(parts[0].1, parts[1..]);
    assert Pads(0) + rest == rest;
  }

  lemma PadOff(lead: nat, parts: seq<Part>, n: nat)
    requires n <= lead
    ensures Padded(lead, parts) == Pads(n) + Padded(lead - n, parts)
  {
    assert Pads(lead) == Pads(n) + Pads(lead - n);
    Assoc(Pads(n), Pads(lead - n), Padded(lead, parts)[lead..]);
    assert Padded(lead, parts)[lead..] == Padded(lead - n, parts)[lead - n..];
    assert Padded(lead - n, parts) == Pads(lead - n) + Padded(lead - n, parts)[lead - n..];
    assert Padded(lead, parts) == Pads(lead) + Padded(lead, parts)[lead..];
  }

  lemma EraseJoin(a: seq<Tagged>, b: seq<Tagged>)
    ensures Erase(a + b) == Erase(a) + Erase(b)
  {
  }

  /** Cancelling a common beginning. */
  lemma Cut<T>(a: seq<T>, b: seq<T>, c: seq<T>, d: seq<T>)
    requires a + b == c + d && |a| <= |c|
    ensures a == c[..|a|] && b == c[|a|..] + d
  {
    assert a == (a + b)[..|a|] && b == (a + b)[|a|..];
    assert (c + d)[..|a|] == c[..|a|] && (c + d)[|a|..] == c[|a|..] + d;
  }

  // One message

  /** Unmarshalling a beginning `d` of a padded stream gives the frames it completes. What is kept is
      the beginning of the next frame, and padding that was not in `d` is still to come. */
  lemma {:induction false} UnmarshallPadded(parts: seq<Part>, d: seq<Tagged>, r: seq<Tagged>) returns (k: nat, m: nat, q: string)
    requires GoodParts(parts) && d + r == Padded(0, parts)
    ensures k <= |parts| && NUL !in q
    ensures Unmarshall(Erase(d)) == (Delivered(parts[..k]), q)
    ensures Ink(q) + r == Padded(m, parts[k..])
    decreases |parts|
  {
    hide Unmarshall, Padded, Good, Text, Marshall, Delivered;
    if d == [] {
      k, m, q := 0, 0, "";
      KeepsAll(parts, d, r);
    } else {
      if parts == [] { NothingPadded(parts); }
      InkOff(0, parts);
      var (f, n) := parts[0];
      assert parts[0] in parts;
      TextShape(f);
      var head := Ink(Text(f) + [NUL]);
      if |d| < |head| {
        Cut(d, r, head, Padded(n, parts[1..]));
        assert Erase(d) == Text(f)[..|d|];
        k, m, q := 0, 0, Erase(d);
        assert d == Ink(q);
        KeepsAll(parts, d, r);
      } else {
        Cut(head, Padded(n, parts[1..]), d, r);
        k, m, q := UnmarshallBehind(parts, d[|head|..], r);
        assert head + d[|head|..] == d;
      }
    }
  }

  lemma NothingPadded(parts: seq<Part>)
    requires parts == []
    ensures Padded(0, parts) == []
  {
  }

  lemma KeepsAll(parts: seq<Part>, d: seq<Tagged>, r: seq<Tagged>)
    requires d + r == Padded(0, parts) && NUL !in Erase(d) && Erase(d) != [LF] && d == Ink(Erase(d))
    ensures Unmarshall(Erase(d)) == (Delivered(parts[..0]), Erase(d))
    ensures Ink(Erase(d)) + r == Padded(0, parts[0..])
  {
    UnmarshallNothing(Erase(d));
    assert parts[0..] == parts;
  }

  lemma NoneDelivered(parts: seq<Part>)
    ensures Delivered(parts[..0]) == []
  {
  }

  lemma DeliveredMore(parts: seq<Part>, k: nat)
    requires parts != [] && k < |parts|
    ensures Delivered(parts[..k + 1]) == [Arrived(parts[0].0)] + Delivered(parts[1..][..k])
  {
    hide Arrived;
    assert parts[..k + 1][1..] == parts[1..][..k];
  }

  lemma {:induction false} DeliveredJoin(parts: seq<Part>, k: nat)
    requires k <= |parts|
    ensures Delivered(parts) == Delivered(parts[..k]) + Delivered(parts[k..])
  {
    hide Arrived;
    if k == 0 {
      assert parts[0..] == parts;
    } else {
      DeliveredJoin(parts[1..], k - 1);
      DeliveredMore(parts, k - 1);
      assert parts[1..][k - 1..] == parts[k..];
      assert Delivered(parts) == [Arrived(parts[0].0)] + Delivered(parts[1..]);
      hide Delivered;
      Assoc([Arrived(parts[0].0)], Delivered(parts[1..][..k - 1]), Delivered(parts[k..]));
    }
  }

  /** Behind its padding a stream goes on with a frame. */
  lemma StartsWithText(parts: seq<Part>, d: seq<Tagged>, r: seq<Tagged>)
    requires GoodParts(parts) && d + r == Padded(0, parts) && d != []
    ensures parts != [] && !d[0].1 && d[0].0 != LF && d[0].0 == Text(parts[0].0)[0]
  {
    hide Text, Marshall, Good, Padded;
    if parts == [] { NothingPadded(parts); }
    InkOff(0, parts);
    assert parts[0] in parts;
    TextShape(parts[0].0);
    assert d[0] == (d + r)[0];
  }

  lemma OneOff(f: Frame, e: seq<Tagged>, j: nat)
    requires Good(f) && j <= |e| && e[..j] == Pads(j) && (e[j..] != [] ==> e[j..][0].0 != LF)
    ensures var rest := Unmarshall(Erase(e[j..]));
            Unmarshall(Erase(Ink(Text(f) + [NUL]) + e)) == ([Arrived(f)] + rest.0, rest.1)
  {
    hide Unmarshall, UnmarshallSingle, Text, Good, Arrived;
    TextShape(f);
    FrameRoundTrip(f);
    UnmarshallOne(Text(f), j, Erase(e[j..]));
    ErasePadded(Text(f) + [NUL], e, j);
  }

  lemma ErasePadded(s: string, e: seq<Tagged>, j: nat)
    requires j <= |e| && e[..j] == Pads(j)
    ensures Erase(Ink(s) + e) == s + LineFeeds(j) + Erase(e[j..])
  {
    EraseJoin(Ink(s), e);
    EraseJoin(Pads(j), e[j..]);
    assert e == Pads(j) + e[j..];
    assert Erase(Ink(s)) == s && Erase(Pads(j)) == LineFeeds(j);
    hide Erase;
    Assoc(s, LineFeeds(j), Erase(e[j..]));
  }

  /** The same with the first frame complete: what follows is `e`. */
  lemma {:induction false} UnmarshallBehind(parts: seq<Part>, e: seq<Tagged>, r: seq<Tagged>) returns (k: nat, m: nat, q: string)
    requires GoodParts(parts) && parts != [] && e + r == Padded(parts[0].1, parts[1..])
    ensures k <= |parts| && NUL !in q
    ensures Unmarshall(Erase(Ink(Text(parts[0].0) + [NUL]) + e)) == (Delivered(parts[..k]), q)
    ensures Ink(q) + r == Padded(m, parts[k..])
    decreases |parts|, 0
  {
    hide Unmarshall, Padded, Good, Text, Marshall, Delivered;
    var (f, n) := parts[0];
    var more := parts[1..];
    var j := if |e| <= n then |e| else n;
    PadOff(n, more, j);
    Cut(Pads(j), Padded(n - j, more), e, r);
    var rest, k1 := e[j..], 0;
    if |e| <= n {
      k1, m, q := 0, n - j, "";
      assert Ink(q) + r == r && rest + r == r;
      NoneDelivered(more);
      UnmarshallNothing("");
      assert Erase(rest) == "" && more[0..] == more;
    } else {
      StartsWithText(more, rest, r);
      k1, m, q := UnmarshallPadded(more, rest, r);
    }
    k := k1 + 1;
    assert parts[0] in parts;
    OneOff(f, e, j);
    DeliveredMore(parts, k1);
    assert parts[k..] == more[k1..];
  }

  // What cannot be repaired

  function Feeds(s: string): nat {
    if s == "" then 0 else (if s[0] == LF then 1 else 0) + Feeds(s[1..])
  }

  lemma {:induction false} FeedsJoin(a: string, b: string)
    ensures Feeds(a + b) == Feeds(a) + Feeds(b)
  {
    if a == "" {
      assert a + b == b;
    } else {
      FeedsJoin(a[1..], b);
      assert (a + b)[1..] == a[1..] + b;
    }
  }

  lemma {:induction false} FeedsNone(s: string)
    requires LF !in s
    ensures Feeds(s) == 0
  {
    if s != "" {
      assert forall c :: c in s[1..] ==> c in s;
      FeedsNone(s[1..]);
    }
  }

  lemma FeedsAt(a: string, b: string)
    requires LF !in a
    ensures Feeds(a + [LF] + b) == 1 + Feeds(b)
  {
    hide Feeds;
    FeedsJoin(a + [LF], b);
    FeedsJoin(a, [LF]);
    FeedsNone(a);
    OneFeed();
  }

  lemma {:induction false} LinesAreFeeds(s: string)
    ensures |SplitLines(s)| == Feeds(s) + 1
    decreases |s|
  {
    hide Feeds;
    var i := IndexOf(s, LF);
    if i < 0 {
      FeedsNone(s);
    } else {
      LinesAreFeeds(s[i + 1..]);
      FeedsAt(s[..i], s[i + 1..]);
      assert s == s[..i] + [LF] + s[i + 1..];
    }
  }

  lemma {:induction false} HeadersFitLines(lines: seq<string>)
    ensures |ParseHeaders(lines)| <= |lines|
  {
    hide HeaderOf;
    if lines != [] { HeadersFitLines(lines[1..]); }
  }

  lemma {:induction false} HeaderCount(hs: seq<Header>)
    requires GoodHeaders(hs)
    ensures |HeaderMap(hs)| == |hs| && forall k :: k in HeaderMap(hs) ==> exists h :: h in hs && h.0 == k
  {
    hide GoodHeader;
    if hs != [] {
      HeaderCount(hs[1..]);
      forall k | k in HeaderMap(hs) ensures exists h :: h in hs && h.0 == k {
        if k == hs[0].0 { assert hs[0] in hs; }
      }
    }
  }

  lemma SentCount(f: Frame)
    requires Good(f)
    ensures |HeaderMap(Sent(f))| == |Sent(f)|
  {
    hide HeaderMap, GoodHeaders, SizeOfUTF8, Decimal;
    GoodHeaderLines(f.headers);
    HeaderCount(f.headers);
    var h := (CONTENT_LENGTH, Decimal(SizeOfUTF8(f.body)));
    HeaderMapLast(f.headers, h);
    assert Sent(f) == f.headers || Sent(f) == f.headers + [h];
  }

  lemma TextFeeds(f: Frame)
    requires Good(f)
    ensures Feeds(Text(f)) == |Sent(f)| + 2 + Feeds(f.body)
  {
    hide Sent, HeaderLines, SplitLines, Join, Good, Text, Dense, Feeds;
    var lines := [f.command] + HeaderLines(Sent(f));
    TextShape(f);
    LinesAreFeeds(Join(lines));
    LineCount(Sent(f));
    FeedsAround(Join(lines), f.body);
  }

  lemma TwoFeeds()
    ensures Feeds([LF, LF]) == 2
  {
    assert [LF][1..] == "" && Feeds([LF]) == 1;
    assert [LF, LF][1..] == [LF];
  }

  lemma {:induction false} LineCount(hs: seq<Header>)
    ensures |HeaderLines(hs)| == |hs|
  {
    if hs != [] { LineCount(hs[1..]); }
  }

  lemma {:induction false} BlankAt(s: string)
    requires FirstBlank(s) >= 0
    ensures var d := FirstBlank(s); s == s[..d] + [LF, LF] + s[d + 2..]
  {
    if !(s[0] == LF && s[1] == LF) {
      BlankAt(s[1..]);
      var d := FirstBlank(s[1..]);
      assert s[..d + 1] == [s[0]] + s[1..][..d] && s[1..][d + 2..] == s[d + 3..];
    }
  }

  lemma FewerFeeds(a: string, b: string)
    requires a <= b
    ensures Feeds(a) <= Feeds(b)
  {
    FeedsJoin(a, b[|a|..]);
    assert a + b[|a|..] == b;
  }

  lemma PieceBody(f: Frame, piece: string, d: nat)
    requires Good(f) && d + 2 <= |piece|
    ensures Feeds(BodyOf(piece, d + 2, HeaderMap(Sent(f)))) <= Feeds(piece[d + 2..])
  {
    hide Decimal, SizeOfUTF8, ParseInt, Sent, HeaderMap, Feeds;
    LengthHeader(f);
    var body := BodyOf(piece, d + 2, HeaderMap(Sent(f)));
    if f.body != "" && !f.skipContentLength {
      var n := SizeOfUTF8(f.body);
      DecimalRoundTrip(n);
      assert body <= piece[d + 2..];
    } else {
      UntilNulPrefix(piece[d + 2..]);
    }
    FewerFeeds(body, piece[d + 2..]);
  }

  lemma {:induction false} UntilNulPrefix(s: string)
    ensures UntilNul(s) <= s
  {
    if s != "" && s[0] != NUL { UntilNulPrefix(s[1..]); }
  }

  lemma FeedsAround(head: string, body: string)
    ensures Feeds(head + [LF, LF] + body) == Feeds(head) + 2 + Feeds(body)
  {
    hide Feeds;
    FeedsJoin(head + [LF, LF], body);
    FeedsJoin(head, [LF, LF]);
    TwoFeeds();
  }

  lemma HeadlessPiece(piece: string)
    requires FirstBlank(piece) < 0 || (piece != "" && piece[0] == LF)
    ensures UnmarshallSingle(piece).command == ""
  {
    hide ParseHeaders, BodyOf;
    var head := Substring(piece, Int(0), Int(FirstBlank(piece)));
    assert head == "" || head[0] == LF;
    assert SplitLines(head)[0] == "";
  }

  lemma ShortPiece(f: Frame, piece: string)
    requires Good(f) && FirstBlank(piece) >= 0 && Feeds(piece) < Feeds(Text(f))
    ensures UnmarshallSingle(piece) != Arrived(f)
  {
    var d := FirstBlank(piece);
    var head := piece[..d];
    var lines := SplitLines(head);
    var headers := ParseHeaders(lines[1..]);
    assert Substring(piece, Int(0), Int(d)) == head;
    assert UnmarshallSingle(piece) == Received(lines[0], headers, BodyOf(piece, d + 2, headers));
    hide UnmarshallSingle, SplitLines, FirstBlank, Substring, BodyOf, ParseHeaders, HeaderMap, Sent, Feeds, Good, Text;
    BlankAt(piece);
    FeedsAround(head, piece[d + 2..]);
    LinesAreFeeds(head);
    HeadersFitLines(lines[1..]);
    TextFeeds(f);
    SentCount(f);
    PieceBody(f, piece, d);
  }

  /** A piece that lost a line feed of its frame, or begins with one, is another frame. */
  lemma {:induction false} SpoiledPiece(f: Frame, piece: string)
    requires Good(f) && ((piece != "" && piece[0] == LF) || Feeds(piece) < Feeds(Text(f)))
    ensures UnmarshallSingle(piece) != Arrived(f)
  {
    hide UnmarshallSingle, Text, Feeds, GoodHeaders, FirstBlank;
    if FirstBlank(piece) < 0 || (piece != "" && piece[0] == LF) {
      HeadlessPiece(piece);
    } else {
      ShortPiece(f, piece);
    }
  }

  lemma {:induction false} UntilNulAt(s: string, rest: string)
    requires NUL !in s
    ensures UntilNul(s + [NUL] + rest) == s
  {
    if s != "" {
      assert s[0] in s && forall c :: c in s[1..] ==> c in s;
      UntilNulAt(s[1..], rest);
      assert (s + [NUL] + rest)[1..] == s[1..] + [NUL] + rest;
    }
  }

  /** What the receiver has and will get begins wrongly or has a line feed too few. */
  predicate Spoiled(f: Frame, s: string) {
    s != "" && NUL in s && (s[0] == LF || Feeds(UntilNul(s)) < Feeds(Text(f)))
  }

  lemma FirstOfSplit(data: string)
    requires NUL in data
    ensures SplitFrames(data).0 != [] && SplitFrames(data).0[0] == data[..IndexOf(data, NUL)]
  {
  }

  lemma FirstOfEach(pieces: seq<string>)
    requires pieces != []
    ensures UnmarshallEach(pieces) != [] && UnmarshallEach(pieces)[0] == UnmarshallSingle(pieces[0])
  {
  }

  lemma {:induction false} FirstPiece(data: string, rest: string)
    requires NUL in data
    ensures Unmarshall(data).0 != [] && Unmarshall(data).0[0] == UnmarshallSingle(UntilNul(data + rest))
  {
    hide UnmarshallSingle, UntilNul, SplitFrames, UnmarshallEach;
    FirstOfSplit(data);
    FirstOfEach(SplitFrames(data).0);
    var i := IndexOf(data, NUL);
    var text, more := data[..i], data[i + 1..];
    assert data + rest == text + [NUL] + (more + rest);
    UntilNulAt(text, more + rest);
  }

  /** Once spoiled, whatever the messages, something else than the frame comes first. */
  lemma {:induction false} Doomed(f: Frame, data: string, chunks: seq<string>)
    requires Good(f) && data != "" && data != [LF] && Spoiled(f, data + Concat(chunks))
    ensures var r := Unmarshall(data).0 + ReceiveAll(Unmarshall(data).1, chunks).0;
            r != [] && r[0] != Arrived(f)
    decreases |chunks|
  {
    hide Unmarshall, UnmarshallSingle, Good, Text, Arrived, Feeds;
    if NUL in data {
      var piece := UntilNul(data + Concat(chunks));
      FirstPiece(data, Concat(chunks));
      if data[0] == LF { BeginsSo(data + Concat(chunks)); }
      SpoiledPiece(f, piece);
    } else {
      UnmarshallNothing(data);
      assert chunks == [] ==> data + Concat(chunks) == data;
      var c, rest := chunks[0], Concat(chunks[1..]);
      Assoc(data, c, rest);
      assert data + Concat(chunks) == data + c + rest;
      if c == [LF] {
        StillSpoiled(f, data, rest);
        Doomed(f, data, chunks[1..]);
        assert ReceiveAll(data, chunks).0 == [] + ReceiveAll(data, chunks[1..]).0;
      } else {
        Doomed(f, data + c, chunks[1..]);
      }
    }
  }

  lemma BeginsSo(s: string)
    requires s != "" && s[0] != NUL
    ensures UntilNul(s) != "" && UntilNul(s)[0] == s[0]
  {
  }

  lemma StillSpoiled(f: Frame, data: string, rest: string)
    requires NUL !in data && data != "" && Spoiled(f, data + [LF] + rest)
    ensures Spoiled(f, data + rest)
  {
    hide Text, Feeds, UntilNul;
    var s, s1 := data + [LF] + rest, data + rest;
    assert s[0] == data[0] == s1[0];
    assert NUL in rest by { assert NUL in s; }
    var i := IndexOf(rest, NUL);
    var a, b := rest[..i], rest[i + 1..];
    assert rest == a + [NUL] + b;
    assert s == data + [LF] + a + [NUL] + b && s1 == data + a + [NUL] + b;
    UntilNulAt(data + [LF] + a, b);
    UntilNulAt(data + a, b);
    FeedsJoin(data + [LF], a);
    FeedsJoin(data, [LF]);
    FeedsJoin(data, a);
    assert s1[|data| + i] == NUL;
  }

  /** Padding at the very end that is kept stays kept. */
  lemma {:induction false} KeptPadding(data: string, chunks: seq<string>)
    requires |data| >= 2 && NUL !in data && NUL !in Concat(chunks)
    ensures ReceiveAll(data, chunks).1 != ""
    decreases |chunks|
  {
    hide Unmarshall;
    if chunks != [] {
      var c := chunks[0];
      assert NUL !in c && NUL !in Concat(chunks[1..]);
      if c == [LF] {
        KeptPadding(data, chunks[1..]);
      } else {
        UnmarshallNothing(data + c);
        KeptPadding(data + c, chunks[1..]);
      }
    }
  }

  // The exact condition

  lemma {:induction false} EraseConcat(chunks: seq<seq<Tagged>>)
    ensures Concat(EraseEach(chunks)) == Erase(Concat(chunks))
  {
    if chunks != [] {
      EraseConcat(chunks[1..]);
      assert Erase(chunks[0] + Concat(chunks[1..])) == Erase(chunks[0]) + Erase(Concat(chunks[1..]));
    }
  }

  // Where the receiver can be in a stream: `p` is kept and `r` is to come.

  lemma BeforePadding(parts: seq<Part>, lead: nat, p: string, r: seq<Tagged>)
    requires lead > 0 && Ink(p) + r == Padded(lead, parts)
    ensures p == "" && r == Padded(lead, parts) && r != [] && r[0] == (LF, true)
  {
    var all := Ink(p) + r;
    assert all[0] == (LF, true);
    assert p == "";
    assert all == r;
  }

  lemma AtTheEnd(parts: seq<Part>, p: string, r: seq<Tagged>)
    requires parts == [] && Ink(p) + r == Padded(0, parts)
    ensures p == "" && r == []
  {
    assert |Ink(p) + r| == |p| + |r|;
  }

  lemma {:induction false} InFrame(parts: seq<Part>, p: string, r: seq<Tagged>)
    requires GoodParts(parts) && parts != [] && NUL !in p && Ink(p) + r == Padded(0, parts)
    ensures p <= Text(parts[0].0)
    ensures r == Ink(Text(parts[0].0)[|p|..] + [NUL]) + Padded(parts[0].1, parts[1..])
    ensures Text(parts[0].0) != "" && Text(parts[0].0)[0] != LF && NUL !in Text(parts[0].0)
  {
    hide Text, Marshall, Good, Padded;
    InkOff(0, parts);
    var text, more := Text(parts[0].0), Padded(parts[0].1, parts[1..]);
    assert parts[0] in parts;
    TextShape(parts[0].0);
    InkPrefix(p, r, text, more);
  }

  lemma InkPrefix(p: string, r: seq<Tagged>, text: string, more: seq<Tagged>)
    requires NUL !in p && Ink(p) + r == Ink(text + [NUL]) + more
    ensures p <= text && r == Ink(text[|p|..] + [NUL]) + more
  {
    var all := Ink(p) + r;
    assert all[|text|] == (NUL, false);
    assert |p| <= |text|;
    Cut(Ink(p), r, Ink(text + [NUL]), more);
    forall i | 0 <= i < |p| ensures p[i] == text[i] { assert Ink(p)[i] == all[i]; }
    assert Ink(text + [NUL])[|p|..] == Ink(text[|p|..] + [NUL]);
  }

  // Messages that are not fine

  /** A line feed of a frame taken for a heart-beat: what is left of the text. */
  lemma FeedInText(parts: seq<Part>, p: string, rest: seq<Tagged>) returns (u: string, more: seq<Tagged>)
    requires GoodParts(parts) && parts != [] && NUL !in p
    requires Ink(p) + ([(LF, false)] + rest) == Padded(0, parts)
    ensures Text(parts[0].0) == p + [LF] + u && p != "" && p[0] != LF && NUL !in Text(parts[0].0)
    ensures Erase(rest) == u + [NUL] + Erase(more)
  {
    hide Text, Good, Padded;
    InFrame(parts, p, [(LF, false)] + rest);
    var text := Text(parts[0].0);
    var t := text[|p|..];
    more := Padded(parts[0].1, parts[1..]);
    u := FeedFirst(t, rest, more);
    assert text == p + t && t == [LF] + u;
    assert p + t == p + [LF] + u;
    assert p == "" ==> p + t == t;
  }

  lemma FeedFirst(t: string, rest: seq<Tagged>, more: seq<Tagged>) returns (u: string)
    requires [(LF, false)] + rest == Ink(t + [NUL]) + more
    ensures t == [LF] + u && Erase(rest) == u + [NUL] + Erase(more)
  {
    var r := [(LF, false)] + rest;
    assert r[0] == Ink(t + [NUL])[0];
    u := t[1..];
    assert t + [NUL] == [LF] + (u + [NUL]);
    assert rest == r[1..];
    assert rest == Ink(u + [NUL]) + more;
    EraseJoin(Ink(u + [NUL]), more);
    assert Erase(Ink(u + [NUL])) == u + [NUL];
  }

  lemma LostFeed(parts: seq<Part>, p: string, chunks: seq<seq<Tagged>>)
    requires GoodParts(parts) && parts != [] && NUL !in p
    requires Ink(p) + ([(LF, false)] + Concat(chunks)) == Padded(0, parts)
    ensures ReceiveAll(p, [[LF]] + EraseEach(chunks)).0 != Delivered(parts)
  {
    hide Unmarshall, Good, Text, Arrived, Padded, Spoiled;
    var f := parts[0].0;
    assert parts[0] in parts;
    var u, more := FeedInText(parts, p, Concat(chunks));
    EraseConcat(chunks);
    SpoiledRest(f, p, u, Erase(more));
    Assoc(p, u + [NUL], Erase(more));
    UnmarshallNothing(p);
    Doomed(f, p, EraseEach(chunks));
    HeartBeat(p, EraseEach(chunks));
    NotDelivered(parts, ReceiveAll(p, EraseEach(chunks)).0);
  }

  lemma HeartBeat(p: string, chunks: seq<string>)
    ensures ReceiveAll(p, [[LF]] + chunks) == ReceiveAll(p, chunks)
  {
    assert ([[LF]] + chunks)[1..] == chunks;
    var more := ReceiveAll(p, chunks);
    assert [] + more.0 == more.0;
  }

  lemma {:induction false} OneMessage(p: string, c: string, chunks: seq<string>)
    requires c != [LF]
    ensures var first := Unmarshall(p + c);
            ReceiveAll(p, [c] + chunks) == (first.0 + ReceiveAll(first.1, chunks).0, ReceiveAll(first.1, chunks).1)
  {
    hide Unmarshall;
    assert ([c] + chunks)[1..] == chunks;
  }

  lemma SpoiledRest(f: Frame, p: string, u: string, more: string)
    requires Text(f) == p + [LF] + u && NUL !in Text(f) && p != "" && p[0] != LF
    ensures Spoiled(f, p + (u + [NUL]) + more)
  {
    hide Text, Feeds, UntilNul;
    var s := p + (u + [NUL]) + more;
    assert s == p + u + [NUL] + more;
    assert NUL !in p + u by { forall i | 0 <= i < |p + u| ensures (p + u)[i] in Text(f) { assert (p + u)[i] == Text(f)[if i < |p| then i else i + 1]; } }
    UntilNulAt(p + u, more);
    FeedsJoin(p + [LF], u);
    FeedsJoin(p, [LF]);
    FeedsJoin(p, u);
    OneFeed();
    assert s[|p + u|] == NUL;
  }

  lemma OneFeed()
    ensures Feeds([LF]) == 1
  {
    assert [LF][1..] == "";
  }

  lemma {:induction false} NotDelivered(parts: seq<Part>, got: seq<Received>)
    requires parts != [] && got != [] && got[0] != Arrived(parts[0].0)
    ensures got != Delivered(parts)
  {
    hide Arrived;
    assert Delivered(parts)[0] == Arrived(parts[0].0);
  }

  /** A message that begins in padding and goes on: at the very end of the stream, */
  lemma KeptAtTheEnd(lead: nat, c: seq<Tagged>, chunks: seq<seq<Tagged>>)
    requires |c| >= 2 && c + Concat(chunks) == Pads(lead)
    ensures ReceiveAll("", [Erase(c)] + EraseEach(chunks)).1 != ""
  {
    hide Unmarshall, ReceiveAll;
    var data := Erase(c);
    AllPads(c, Concat(chunks), lead);
    EraseConcat(chunks);
    assert "" + data == data;
    OneMessage("", data, EraseEach(chunks));
    UnmarshallNothing(data);
    KeptPadding(data, EraseEach(chunks));
  }

  /** and in front of a frame. */
  lemma KeptInFront(f: Frame, data: string, chunks: seq<string>)
    requires Good(f) && |data| >= 2 && data[0] == LF && NUL in data + Concat(chunks)
    ensures var got := ReceiveAll("", [data] + chunks).0; got != [] && got[0] != Arrived(f)
  {
    hide Unmarshall, ReceiveAll, Good, Arrived, Spoiled;
    assert "" + data == data;
    OneMessage("", data, chunks);
    SpoiledStart(f, data + Concat(chunks));
    Doomed(f, data, chunks);
  }

  lemma FeedInFront(parts: seq<Part>, lead: nat, c: seq<Tagged>, rest: seq<Tagged>)
    requires lead > 0 && parts != [] && c != [] && c + rest == Padded(lead, parts)
    ensures Erase(c)[0] == LF && NUL in Erase(c) + Erase(rest)
  {
    PadOff(lead, parts, 1);
    EraseJoin(c, rest);
    HasNul(parts, lead);
    hide Padded;
    assert (c + rest)[0] == Pads(1)[0] == (LF, true);
    assert c[0] == (c + rest)[0];
  }

  lemma KeptFeed(parts: seq<Part>, lead: nat, c: seq<Tagged>, chunks: seq<seq<Tagged>>)
    requires GoodParts(parts) && lead > 0 && |c| >= 2 && c + Concat(chunks) == Padded(lead, parts)
    ensures ReceiveAll("", [Erase(c)] + EraseEach(chunks)) != (Delivered(parts), "")
  {
    hide Good, Arrived, Padded, ReceiveAll, Delivered, Concat, EraseEach;
    if parts == [] {
      OnlyPads(lead, parts);
      KeptAtTheEnd(lead, c, chunks);
    } else {
      FeedInFront(parts, lead, c, Concat(chunks));
      EraseConcat(chunks);
      assert parts[0] in parts;
      KeptInFront(parts[0].0, Erase(c), EraseEach(chunks));
      NotDelivered(parts, ReceiveAll("", [Erase(c)] + EraseEach(chunks)).0);
    }
  }

  lemma AllPads(c: seq<Tagged>, rest: seq<Tagged>, n: nat)
    requires c + rest == Pads(n)
    ensures NUL !in Erase(c) && NUL !in Erase(rest)
  {
    forall i | 0 <= i < |c| ensures Erase(c)[i] == LF { assert (c + rest)[i] == c[i]; }
    forall i | 0 <= i < |rest| ensures Erase(rest)[i] == LF { assert (c + rest)[|c| + i] == rest[i]; }
  }

  lemma SpoiledStart(f: Frame, s: string)
    requires s != "" && NUL in s && s[0] == LF
    ensures Spoiled(f, s)
  {
  }

  lemma OnlyPads(lead: nat, parts: seq<Part>)
    requires parts == []
    ensures Padded(lead, parts) == Pads(lead)
  {
  }

  lemma HasNul(parts: seq<Part>, lead: nat)
    requires parts != []
    ensures NUL in Erase(Padded(lead, parts))
  {
    hide Text;
    var m := Marshall(parts[0].0);
    var all := Padded(lead, parts);
    assert all == Pads(lead) + (Ink(m) + Padded(parts[0].1, parts[1..]));
    assert all[lead + |m| - 1] == Ink(m)[|m| - 1];
    assert Erase(all)[lead + |m| - 1] == NUL;
  }

  // The exact condition

  predicate AllFine(chunks: seq<seq<Tagged>>) {
    forall c :: c in chunks ==> Fine(c)
  }

  lemma OneFine(c: seq<Tagged>, chunks: seq<seq<Tagged>>)
    ensures AllFine([c] + chunks) <==> Fine(c) && AllFine(chunks)
  {
    hide Fine;
    assert c in [c] + chunks && forall x :: x in chunks ==> x in [c] + chunks;
  }

  /** The receiver keeps `p`, and `c` and then `chunks` are to come. */
  ghost predicate OnTheWay(parts: seq<Part>, lead: nat, p: string, r: seq<Tagged>) {
    GoodParts(parts) && NUL !in p && Ink(p) + r == Padded(lead, parts)
  }

  /** A fine message: what it completes, and where the receiver is then. */
  lemma FineMessage(parts: seq<Part>, lead: nat, p: string, c: seq<Tagged>, r: seq<Tagged>) returns (k: nat, m: nat, q: string)
    requires OnTheWay(parts, lead, p, c + r) && Fine(c)
    ensures k <= |parts| && OnTheWay(parts[k..], m, q, r)
    ensures Receive(p, Erase(c)) == (Delivered(parts[..k]), q)
  {
    hide Unmarshall, Good, Delivered, Padded, Text, Marshall;
    if lead > 0 {
      BeforePadding(parts, lead, p, c + r);
      if c == [] {
        assert c + r == r;
        UnmarshallNothing("");
        assert p + Erase(c) == "";
        k, m, q := 0, lead, p;
      } else {
        assert c[0] == (c + r)[0];
        assert c == [(LF, true)] by { assert Erase(c) == [LF]; }
        PadOff(lead, parts, 1);
        Cut(c, r, Pads(1), Padded(lead - 1, parts));
        assert c[1..] == [] && Pads(1)[1..] + Padded(lead - 1, parts) == Padded(lead - 1, parts);
        assert Ink("") + r == r;
        k, m, q := 0, lead - 1, p;
      }
      NoneDelivered(parts);
      assert parts[0..] == parts;
    } else {
      NotPadding(parts, p, c, r);
      Assoc(Ink(p), c, r);
      k, m, q := UnmarshallPadded(parts, Ink(p) + c, r);
      assert Erase(Ink(p) + c) == p + Erase(c);
      assert forall x :: x in parts[k..] ==> x in parts;
    }
  }

  lemma NotPadding(parts: seq<Part>, p: string, c: seq<Tagged>, r: seq<Tagged>)
    requires OnTheWay(parts, 0, p, c + r) && Fine(c)
    ensures Erase(c) != [LF]
  {
    hide Good, Padded, Text, Marshall;
    if parts == [] {
      AtTheEnd(parts, p, c + r);
    } else if c != [] {
      InFrame(parts, p, c + r);
      assert c[0] == (c + r)[0];
    }
  }

  /** A message that is not fine leaves its mark. */
  lemma BadMessage(parts: seq<Part>, lead: nat, p: string, c: seq<Tagged>, chunks: seq<seq<Tagged>>)
    requires OnTheWay(parts, lead, p, c + Concat(chunks)) && !Fine(c)
    ensures ReceiveAll(p, [Erase(c)] + EraseEach(chunks)) != (Delivered(parts), "")
  {
    hide Good, Padded, Text, Marshall, ReceiveAll, Delivered;
    var r := Concat(chunks);
    assert c[0] == (c + r)[0];
    if lead > 0 {
      BeforePadding(parts, lead, p, c + r);
      assert |c| == 1 ==> Erase(c) == [LF];
      KeptFeed(parts, lead, c, chunks);
    } else if parts == [] {
      AtTheEnd(parts, p, c + r);
    } else {
      InFrame(parts, p, c + r);
      assert c == [(LF, false)] by { assert Erase(c) == [LF] && !c[0].1; }
      LostFeed(parts, p, chunks);
    }
  }

  /** Exactly when everything arrives: with the receiver anywhere between the frames or in one, it
      delivers all frames that follow, and keeps nothing, if and only if each message is a lone
      line feed exactly when it begins with padding. */
  lemma {:induction false} ReceivePadded(parts: seq<Part>, lead: nat, p: string, chunks: seq<seq<Tagged>>)
    requires OnTheWay(parts, lead, p, Concat(chunks))
    ensures ReceiveAll(p, EraseEach(chunks)) == (Delivered(parts), "") <==> AllFine(chunks)
    decreases |chunks|
  {
    hide Receive, Delivered, OnTheWay, Fine;
    if chunks == [] {
      NothingToCome(parts, lead, p);
    } else {
      var c, rest := chunks[0], chunks[1..];
      assert chunks == [c] + rest;
      OneFine(c, rest);
      if Fine(c) {
        var k, m, q := FineMessage(parts, lead, p, c, Concat(rest));
        ReceivePadded(parts[k..], m, q, rest);
        DeliveredJoin(parts, k);
        var more := ReceiveAll(q, EraseEach(rest));
        assert more.0 == (Delivered(parts[..k]) + more.0)[|Delivered(parts[..k])|..];
        assert Delivered(parts[k..]) == Delivered(parts)[|Delivered(parts[..k])|..];
        assert EraseEach(chunks)[1..] == EraseEach(rest);
      } else {
        BadMessage(parts, lead, p, c, rest);
      }
    }
  }

  lemma NothingToCome(parts: seq<Part>, lead: nat, p: string)
    requires OnTheWay(parts, lead, p, [])
    ensures p == "" && Delivered(parts) == []
  {
    hide Good, Padded, Text, Marshall;
    if lead > 0 {
      BeforePadding(parts, lead, p, []);
    } else if parts == [] {
      AtTheEnd(parts, p, []);
    } else {
      InFrame(parts, p, []);
    }
  }

  // Streams without padding

  function Unpadded(frames: seq<Frame>): (parts: seq<Part>)
    ensures |parts| == |frames| && forall i :: 0 <= i < |frames| ==> parts[i] == (frames[i], 0)
  {
    seq(|frames|, i requires 0 <= i < |frames| => (frames[i], 0))
  }

  function InkEach(chunks: seq<string>): seq<seq<Tagged>> {
    if chunks == [] then [] else [Ink(chunks[0])] + InkEach(chunks[1..])
  }

  lemma {:induction false} UnpaddedStream(frames: seq<Frame>)
    ensures Padded(0, Unpadded(frames)) == Ink(Stream(frames)) && Delivered(Unpadded(frames)) == AllArrived(frames)
  {
    hide Marshall, Arrived;
    assert Pads(0) == [];
    if frames != [] {
      UnpaddedStream(frames[1..]);
      assert Unpadded(frames)[1..] == Unpadded(frames[1..]);
      assert Ink(Marshall(frames[0]) + Stream(frames[1..])) == Ink(Marshall(frames[0])) + Ink(Stream(frames[1..]));
    }
  }

  lemma {:induction false} InkChunks(chunks: seq<string>)
    ensures Concat(InkEach(chunks)) == Ink(Concat(chunks)) && EraseEach(InkEach(chunks)) == chunks
    ensures AllFine(InkEach(chunks)) <==> forall c :: c in chunks ==> c != [LF]
  {
    if chunks != [] {
      var c, rest := chunks[0], chunks[1..];
      InkChunks(rest);
      assert Ink(c + Concat(rest)) == Ink(c) + Ink(Concat(rest));
      assert Erase(Ink(c)) == c;
      assert Fine(Ink(c)) <==> c != [LF];
      OneFine(Ink(c), InkEach(rest));
      assert InkEach(chunks) == [Ink(c)] + InkEach(rest);
      hide *;
      assert c in chunks && forall x :: x in rest ==> x in chunks;
      assert forall x :: x in chunks ==> x == c || x in rest;
    } else {
      assert Ink("") == [];
    }
  }

  /** The receiver, fed a stream in chunks of any sizes, delivers the frames of the stream with nothing
      left over if and only if none of the chunks is a lone line feed. */
  lemma ReceiveStream(frames: seq<Frame>, partial: string, chunks: seq<string>)
    requires AllGood(frames) && NUL !in partial && partial + Concat(chunks) == Stream(frames)
    ensures ReceiveAll(partial, chunks) == (AllArrived(frames), "") <==> forall c :: c in chunks ==> c != [LF]
  {
    hide Good, Padded, Stream, Fine;
    UnpaddedStream(frames);
    InkChunks(chunks);
    assert Ink(partial) + Ink(Concat(chunks)) == Ink(partial + Concat(chunks));
    assert OnTheWay(Unpadded(frames), 0, partial, Concat(InkEach(chunks)));
    ReceivePadded(Unpadded(frames), 0, partial, InkEach(chunks));
  }

  /** End to end: frames sent one after the other arrive one after the other, unless the socket
      frames hold a single character, where every line feed is taken for a heart-beat. */
  lemma {:induction false} EndToEnd(frames: seq<Frame>, max: nat)
    requires AllGood(frames) && frames != [] && max > 0
    ensures ReceiveAll("", TransmitAll(frames, max)).0 == AllArrived(frames) <==> max >= 2
    ensures max >= 2 ==> ReceiveAll("", TransmitAll(frames, max)).1 == ""
  {
    hide Stream, ReceiveAll, TransmitAll, Arrived;
    TransmitJoin(frames, max);
    if max >= 2 {
      assert "" + Concat(TransmitAll(frames, max)) == Stream(frames);
      ReceiveStream(frames, "", TransmitAll(frames, max));
      assert ReceiveAll("", TransmitAll(frames, max)) == (AllArrived(frames), "");
    } else {
      ReceiveNameless("", TransmitAll(frames, max));
      var f := frames[0];
      assert f in frames;
      assert AllArrived(frames)[0] == Arrived(f);
      ArrivedCommand(f);
    }
  }

  /** Line feeds behind a frame, in a message of their own or at the head of the next one, cost the
      next frame its command, unless they are a lone one. */
  lemma {:induction false} PaddingInItsOwnMessage(f: Frame, g: Frame, n: nat, m: nat)
    requires Good(f) && Good(g) && n != 1 && n + m > 0
    ensures var r := ReceiveAll("", [Marshall(f), LineFeeds(n), LineFeeds(m) + Marshall(g)]).0;
            |r| == 2 && r[0] == Arrived(f) && r[1].command == ""
  {
    hide Unmarshall, UnmarshallSingle, Text, Arrived, Good, ReceiveAll, LineFeeds;
    var first, second, third := Marshall(f), LineFeeds(n), LineFeeds(m) + Marshall(g);
    UnmarshallAlone(f);
    UnmarshallAlone(g);
    assert |second| == n;
    UnmarshallNothing(second);
    ThreeMessages(first, second, third);
    var text := LineFeeds(n) + (LineFeeds(m) + Text(g));
    TextShape(g);
    assert second + third == text + [NUL];
    NoPadding(text, "");
    UnmarshallOne(text, 0, "");
    UnmarshallNothing("");
    HeadlessPiece(text);
    assert text + [NUL] + "" == second + third;
  }

  lemma {:induction false} ThreeMessages(a: string, b: string, c: string)
    requires a != [LF] && b != [LF] && c != [LF] && Unmarshall(a).1 == "" && Unmarshall(b) == ([], b)
    ensures ReceiveAll("", [a, b, c]).0 == Unmarshall(a).0 + Unmarshall(b + c).0
  {
    hide Unmarshall, ReceiveAll;
    assert [a] + [b, c] == [a, b, c] && [b] + [c] == [b, c] && [c] + [] == [c] && "" + a == a && "" + b == b;
    OneMessage("", a, [b, c]);
    OneMessage("", b, [c]);
    OneMessage(b, c, []);
    NothingMore(Unmarshall(b + c).1);
  }

  lemma UnmarshallAlone(f: Frame)
    requires Good(f)
    ensures Unmarshall(Marshall(f)) == ([Arrived(f)], "") && |Marshall(f)| >= 2
  {
    hide Unmarshall, UnmarshallSingle, Text, Arrived, Good, LineFeeds;
    TextShape(f);
    FrameRoundTrip(f);
    NoPadding(Text(f), "");
    assert Text(f) + [NUL] + "" == Marshall(f);
    UnmarshallOne(Text(f), 0, "");
    UnmarshallNothing("");
    assert [Arrived(f)] + [] == [Arrived(f)];
  }

  lemma NoPadding(text: string, rest: string)
    ensures text + [NUL] + LineFeeds(0) + rest == text + [NUL] + rest
  {
  }

  lemma NothingMore(partial: string)
    ensures ReceiveAll(partial, []) == ([], partial)
  {
  }
}
