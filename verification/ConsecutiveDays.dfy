/** The accumulate function for consecutive days: one bucket for every day, with the number of values
    of that day, kept up to date as values come and go. */
module ConsecutiveDays {
  import opened Options

  const MILLIS_PER_DAY := 86400000
  const INT_RANGE := 0x1_0000_0000

  // The day of a value

  function Abs(n: int): nat {
    if n < 0 then -n else n
  }

  function Sign(n: int): int {
    if n < 0 then -1 else 1
  }

  /** `n / d` to the nearest integer, halves away from zero. */
  function RoundHalfUp(n: int, d: nat): int
    requires d > 0
  {
    Sign(n) * ((2 * Abs(n) + d) / (2 * d))
  }

  /** The lowest 32 bits as a signed number. */
  function Wrap(n: int): (r: int)
    ensures -0x8000_0000 <= r < 0x8000_0000
    ensures (r - n) % INT_RANGE == 0
  {
    var low := n % INT_RANGE;
    if low < 0x8000_0000 then low else low - INT_RANGE
  }

  /** Division with two decimals, then truncation. */
  function GetDays(v: int): int {
    var hundredths := RoundHalfUp(100 * v, MILLIS_PER_DAY);
    Wrap(Sign(hundredths) * (Abs(hundredths) / 100))
  }

  /** Despite the two roundings the day is one division, by whole days with 432 seconds to spare. */
  lemma GetDaysIsOneDivision(v: int)
    ensures GetDays(v) == Wrap(if v >= 0 then (v + 432000) / MILLIS_PER_DAY else -((-v + 432000) / MILLIS_PER_DAY))
    ensures 0 <= v && (v + 432000) / MILLIS_PER_DAY < 0x8000_0000 ==> GetDays(v) == (v + 432000) / MILLIS_PER_DAY
  {
    var a := if v >= 0 then v else -v;
    var h := (2 * (100 * a) + MILLIS_PER_DAY) / (2 * MILLIS_PER_DAY);
    TwoDivisions(a);
    Rounded(v, a, h);
    Truncated(RoundHalfUp(100 * v, MILLIS_PER_DAY), h);
    hide Wrap, RoundHalfUp, Sign, Abs;
    assert 0 <= v && (v + 432000) / MILLIS_PER_DAY < 0x8000_0000 ==> Wrap((v + 432000) / MILLIS_PER_DAY) == (v + 432000) / MILLIS_PER_DAY by {
      if 0 <= v && (v + 432000) / MILLIS_PER_DAY < 0x8000_0000 { Fits((v + 432000) / MILLIS_PER_DAY); }
    }
  }

  lemma Fits(n: nat)
    requires n < 0x8000_0000
    ensures Wrap(n) == n
  {
  }

  lemma Rounded(v: int, a: nat, h: int)
    requires a == (if v >= 0 then v else -v) && h == (2 * (100 * a) + MILLIS_PER_DAY) / (2 * MILLIS_PER_DAY)
    ensures RoundHalfUp(100 * v, MILLIS_PER_DAY) == if v >= 0 then h else -h
  {
    assert Abs(100 * v) == 100 * a;
  }

  lemma Truncated(r: int, h: int)
    requires h >= 0 && (r == h || r == -h)
    ensures Sign(r) * (Abs(r) / 100) == if r == h then h / 100 else -(h / 100)
  {
  }

  lemma TwoDivisions(a: nat)
    ensures ((2 * (100 * a) + MILLIS_PER_DAY) / (2 * MILLIS_PER_DAY)) / 100 == (a + 432000) / MILLIS_PER_DAY
  {
    var q := (2 * (100 * a) + MILLIS_PER_DAY) / (2 * MILLIS_PER_DAY);
    assert q == (a + 432000) / 864000;
  }

  /** It is the calendar day exactly outside the last 432 seconds of a day, which count as the next one. */
  lemma CalendarDay(v: int)
    requires 0 <= v && v / MILLIS_PER_DAY < 0x7fff_ffff
    ensures GetDays(v) == v / MILLIS_PER_DAY <==> v % MILLIS_PER_DAY < MILLIS_PER_DAY - 432000
    ensures GetDays(v) == v / MILLIS_PER_DAY || GetDays(v) == v / MILLIS_PER_DAY + 1
  {
    GetDaysIsOneDivision(v);
  }

  // Buckets

  type Buckets = map<int, int>

  function Accumulate(b: Buckets, v: int): Buckets {
    var day := GetDays(v);
    if day in b then b[day := Wrap(b[day] + 1)] else b[day := 1]
  }

  function Reverse(b: Buckets, v: int): Buckets {
    var day := GetDays(v);
    if day !in b then b
    else if b[day] == 1 then b - {day}
    else b[day := Wrap(b[day] - 1)]
  }

  function CountOn(values: seq<int>, day: int): (n: nat)
    ensures n <= |values|
  {
    if values == [] then 0 else CountOn(values[1..], day) + if GetDays(values[0]) == day then 1 else 0
  }

  ghost function Days(values: seq<int>): set<int> {
    set v | v in values :: GetDays(v)
  }

  function At(b: Buckets, day: int): int {
    if day in b then b[day] else 0
  }

  /** The buckets count the values day by day, and days without values have none. */
  ghost predicate Counts(b: Buckets, values: seq<int>) {
    && (forall day :: At(b, day) == CountOn(values, day))
    && (forall day :: day in b ==> b[day] > 0)
  }

  lemma {:induction false} CountOnPositive(values: seq<int>, day: int)
    ensures CountOn(values, day) > 0 <==> day in Days(values)
  {
    if values != [] {
      CountOnPositive(values[1..], day);
      if day in Days(values[1..]) {
        var v :| v in values[1..] && GetDays(v) == day;
        assert v in values;
      }
      if day in Days(values) && GetDays(values[0]) != day {
        var v :| v in values && GetDays(v) == day;
        assert v in values[1..];
      }
    }
  }

  lemma {:induction false} CountOnJoin(a: seq<int>, b: seq<int>, day: int)
    ensures CountOn(a + b, day) == CountOn(a, day) + CountOn(b, day)
  {
    hide GetDays;
    if a == [] {
      assert a + b == b;
    } else {
      CountOnJoin(a[1..], b, day);
      assert (a + b)[1..] == a[1..] + b;
    }
  }

  function One(v: int, day: int): nat {
    if GetDays(v) == day then 1 else 0
  }

  lemma CountOnOne(v: int, day: int)
    ensures CountOn([v], day) == One(v, day)
  {
    assert [v][1..] == [];
  }

  lemma AccumulateCounts(b: Buckets, values: seq<int>, v: int)
    requires Counts(b, values) && |values| < 0x7fff_ffff
    ensures Counts(Accumulate(b, v), values + [v])
  {
    hide GetDays, CountOn;
    forall day ensures At(Accumulate(b, v), day) == CountOn(values + [v], day) {
      CountOnJoin(values, [v], day);
      CountOnOne(v, day);
      assert At(b, day) == CountOn(values, day);
    }
    assert At(b, GetDays(v)) == CountOn(values, GetDays(v));
  }

  /** The values with one occurrence taken away. */
  function Without(values: seq<int>, i: nat): seq<int>
    requires i < |values|
  {
    values[..i] + values[i + 1..]
  }

  lemma CountOnWithout(values: seq<int>, i: nat, day: int)
    requires i < |values|
    ensures CountOn(values, day) == CountOn(Without(values, i), day) + One(values[i], day)
  {
    hide GetDays, CountOn, One;
    var v := values[i];
    assert values == values[..i] + ([v] + values[i + 1..]);
    CountOnJoin(values[..i], [v] + values[i + 1..], day);
    CountOnJoin([v], values[i + 1..], day);
    CountOnJoin(values[..i], values[i + 1..], day);
    CountOnOne(v, day);
  }

  lemma ReverseCounts(b: Buckets, values: seq<int>, i: nat)
    requires Counts(b, values) && i < |values| < 0x8000_0000
    ensures Counts(Reverse(b, values[i]), Without(values, i))
  {
    hide GetDays, CountOn, Without;
    var v := values[i];
    assert At(b, GetDays(v)) == CountOn(values, GetDays(v));
    CountOnWithout(values, i, GetDays(v));
    forall day ensures At(Reverse(b, v), day) == CountOn(Without(values, i), day) {
      CountOnWithout(values, i, day);
      assert At(b, day) == CountOn(values, day);
    }
  }

  /** The result is the number of distinct days. */
  lemma SizeIsDistinctDays(b: Buckets, values: seq<int>)
    requires Counts(b, values)
    ensures |b| == |Days(values)|
  {
    hide GetDays, CountOn;
    forall day ensures day in b <==> day in Days(values) {
      CountOnPositive(values, day);
      assert At(b, day) == CountOn(values, day);
    }
    assert b.Keys == Days(values);
  }

  /** Taking back what was just added restores the buckets. */
  lemma ReverseUndoes(b: Buckets, values: seq<int>, v: int)
    requires Counts(b, values) && |values| < 0x7fff_ffff
    ensures Reverse(Accumulate(b, v), v) == b
  {
    hide GetDays, CountOn;
    assert At(b, GetDays(v)) == CountOn(values, GetDays(v));
  }

  /** A reverse of a value that is not there still takes a value of the same day out, if there is one. */
  lemma ReverseOfAnAbsentValue(b: Buckets, values: seq<int>, v: int, i: nat)
    requires Counts(b, values) && |values| < 0x8000_0000
    ensures GetDays(v) !in Days(values) ==> Reverse(b, v) == b
    ensures i < |values| && GetDays(values[i]) == GetDays(v) ==> Counts(Reverse(b, v), Without(values, i))
  {
    hide GetDays, CountOn;
    CountOnPositive(values, GetDays(v));
    assert At(b, GetDays(v)) == CountOn(values, GetDays(v));
    if i < |values| && GetDays(values[i]) == GetDays(v) { ReverseCounts(b, values, i); }
  }

  // Whole runs

  datatype Op = Accumulated(v: int) | Reversed(v: int)

  function Step(b: Buckets, op: Op): Buckets {
    match op
    case Accumulated(v) => Accumulate(b, v)
    case Reversed(v) => Reverse(b, v)
  }

  function Run(ops: seq<Op>): Buckets {
    if ops == [] then map[] else Step(Run(ops[..|ops| - 1]), ops[|ops| - 1])
  }

  ghost function Left(values: multiset<int>, op: Op): multiset<int> {
    match op
    case Accumulated(v) => values + multiset{v}
    case Reversed(v) => values - multiset{v}
  }

  /** The values left after a run. */
  ghost function Remaining(ops: seq<Op>): multiset<int> {
    if ops == [] then multiset{} else Left(Remaining(ops[..|ops| - 1]), ops[|ops| - 1])
  }

  /** Every reversed value was there. */
  ghost predicate Fair(ops: seq<Op>) {
    ops != [] ==>
      && Fair(ops[..|ops| - 1])
      && (ops[|ops| - 1].Reversed? ==> ops[|ops| - 1].v in Remaining(ops[..|ops| - 1]))
  }

  lemma TakeOut(values: seq<int>, i: nat)
    requires i < |values|
    ensures multiset(Without(values, i)) == multiset(values) - multiset{values[i]}
  {
    assert values == values[..i] + ([values[i]] + values[i + 1..]);
  }

  lemma StepCounts(b: Buckets, values: seq<int>, op: Op) returns (values': seq<int>)
    requires Counts(b, values) && |values| < 0x7fff_ffff && (op.Reversed? ==> op.v in values)
    ensures Counts(Step(b, op), values') && multiset(values') == Left(multiset(values), op) && |values'| <= |values| + 1
  {
    hide GetDays, CountOn, Counts, Accumulate, Reverse;
    match op {
      case Accumulated(v) =>
        values' := values + [v];
        AccumulateCounts(b, values, v);
      case Reversed(v) =>
        var i :| 0 <= i < |values| && values[i] == v;
        values' := Without(values, i);
        TakeOut(values, i);
        ReverseCounts(b, values, i);
    }
  }

  /** After any run that reverses only values that are there, the buckets count the values left, in
      whatever order, and the result is the number of their days. */
  lemma {:induction false} RunCounts(ops: seq<Op>) returns (values: seq<int>)
    requires Fair(ops) && |ops| < 0x7fff_ffff
    ensures multiset(values) == Remaining(ops) && |values| <= |ops|
    ensures Counts(Run(ops), values) && |Run(ops)| == |Days(values)|
    decreases |ops|
  {
    hide GetDays, CountOn, Counts, Step, Left, Days;
    if ops == [] {
      values := [];
      NoCounts();
    } else {
      var before := RunCounts(ops[..|ops| - 1]);
      assert forall v :: v in multiset(before) ==> v in before;
      values := StepCounts(Run(ops[..|ops| - 1]), before, ops[|ops| - 1]);
    }
    SizeIsDistinctDays(Run(ops), values);
  }

  lemma NoCounts()
    ensures Counts(map[], [])
  {
  }

  // The function object and its context

  class ConsecutiveDaysBuckets {
    var buckets: Buckets

    constructor ()
      ensures buckets == map[]
    {
      buckets := map[];
    }

    /** `init` */
    method Init()
      modifies this
      ensures buckets == map[] && Counts(buckets, [])
    {
      buckets := map[];
    }

    method AccumulateValue(v: int, ghost values: seq<int>)
      requires Counts(buckets, values) && |values| < 0x7fff_ffff
      modifies this
      ensures buckets == Accumulate(old(buckets), v) && Counts(buckets, values + [v])
    {
      AccumulateCounts(buckets, values, v);
      var days := GetDays(v);
      if days !in buckets {
        buckets := buckets[days := 1];
      } else {
        buckets := buckets[days := Wrap(buckets[days] + 1)];
      }
    }

    method ReverseValue(v: int, ghost values: seq<int>, ghost i: nat)
      requires Counts(buckets, values) && |values| < 0x8000_0000
      modifies this
      ensures buckets == Reverse(old(buckets), v)
      ensures i < |values| && values[i] == v ==> Counts(buckets, Without(values, i))
    {
      if i < |values| && values[i] == v { ReverseCounts(buckets, values, i); }
      var days := GetDays(v);
      if days !in buckets {
      } else if buckets[days] == 1 {
        buckets := buckets - {days};
      } else {
        buckets := buckets[days := Wrap(buckets[days] - 1)];
      }
    }

    method GetResult(ghost values: seq<int>) returns (n: nat)
      requires Counts(buckets, values)
      ensures n == |Days(values)|
    {
      SizeIsDistinctDays(buckets, values);
      n := |buckets|;
    }

    /** The pairs in the order the map hands its keys out. */
    method WriteExternal(keys: seq<int>) returns (out: seq<int>)
      requires forall i, j :: 0 <= i < j < |keys| ==> keys[i] != keys[j]
      requires forall k :: k in keys <==> k in buckets
      ensures out == Written(buckets, keys)
    {
      out := [|buckets|];
      for i := 0 to |keys|
        invariant out == [|buckets|] + Pairs(buckets, keys[..i])
      {
        assert keys[..i + 1] == keys[..i] + [keys[i]];
        PairsLast(buckets, keys[..i], keys[i]);
        out := out + [keys[i]];
        out := out + [buckets[keys[i]]];
      }
      assert keys[..|keys|] == keys;
    }

    /** Returns what is left of the input, or None when it ends too early, which throws; the pairs read
        before that stay in the map. */
    method ReadExternal(input: seq<int>) returns (rest: Option<seq<int>>)
      modifies this
      ensures (buckets, rest) == Read(input)
    {
      buckets := map[];
      if input == [] { return None; }
      var size := input[0];
      var left := input[1..];
      var i := 0;
      while i < size
        invariant 0 <= i && (i <= size || i == 0) && 2 * i <= |input| - 1 && left == input[1 + 2 * i..]
        invariant buckets == ReadPairs(input[1..], i)
        decreases size - i
      {
        if |left| < 2 { return None; }
        buckets := buckets[left[0] := left[1]];
        left := left[2..];
        i := i + 1;
      }
      rest := Some(left);
    }
  }

  function Pairs(b: Buckets, keys: seq<int>): seq<int>
    requires forall k :: k in keys ==> k in b
  {
    if keys == [] then []
    else
      var k := keys[0];
      assert k in keys;
      [k, b[k]] + Pairs(b, keys[1..])
  }

  function Written(b: Buckets, keys: seq<int>): seq<int>
    requires forall k :: k in keys ==> k in b
  {
    [|b|] + Pairs(b, keys)
  }

  function ReadPairs(input: seq<int>, n: nat): Buckets
    requires 2 * n <= |input|
  {
    if n == 0 then map[] else ReadPairs(input, n - 1)[input[2 * n - 2] := input[2 * n - 1]]
  }

  /** The map that is read, and the rest of the input, if the input has all the pairs that its first
      number announces. A negative number announces none. */
  function Read(input: seq<int>): (Buckets, Option<seq<int>>) {
    if input == [] then (map[], None)
    else
      var tail := input[1..];
      var size: nat := if input[0] < 0 then 0 else input[0];
      if 2 * size <= |tail| then (ReadPairs(tail, size), Some(tail[2 * size..]))
      else (ReadPairs(tail, |tail| / 2), None)
  }

  lemma {:induction false} PairsLast(b: Buckets, keys: seq<int>, k: int)
    requires k in b && forall k' :: k' in keys ==> k' in b
    ensures Pairs(b, keys + [k]) == Pairs(b, keys) + [k, b[k]]
  {
    if keys == [] {
      assert keys + [k] == [k];
    } else {
      PairsLast(b, keys[1..], k);
      assert (keys + [k])[1..] == keys[1..] + [k];
    }
  }

  ghost function KeySet(keys: seq<int>): set<int> {
    set k | k in keys
  }

  lemma {:induction false} PairsLength(b: Buckets, keys: seq<int>)
    requires forall k :: k in keys ==> k in b
    ensures |Pairs(b, keys)| == 2 * |keys|
  {
    if keys != [] { PairsLength(b, keys[1..]); }
  }

  lemma {:induction false} ReadPairsBack(b: Buckets, keys: seq<int>, rest: seq<int>)
    requires forall k :: k in keys ==> k in b
    ensures |Pairs(b, keys)| == 2 * |keys|
    ensures ReadPairs(Pairs(b, keys) + rest, |keys|).Keys == KeySet(keys)
    ensures forall k :: k in keys ==> ReadPairs(Pairs(b, keys) + rest, |keys|)[k] == b[k]
    decreases |keys|
  {
    hide Pairs;
    PairsLength(b, keys);
    if keys != [] {
      var n := |keys| - 1;
      var k := keys[n];
      PairsLength(b, keys[..n]);
      assert k in keys && keys == keys[..n] + [k];
      PairsLast(b, keys[..n], k);
      ReadPairsBack(b, keys[..n], [k, b[k]] + rest);
      assert Pairs(b, keys) + rest == Pairs(b, keys[..n]) + ([k, b[k]] + rest);
    }
  }

  lemma {:induction false} DistinctSize(keys: seq<int>)
    requires forall i, j :: 0 <= i < j < |keys| ==> keys[i] != keys[j]
    ensures |KeySet(keys)| == |keys|
  {
    if keys != [] {
      DistinctSize(keys[1..]);
      assert KeySet(keys) == KeySet(keys[1..]) + {keys[0]};
    }
  }

  /** What is written is read again, whatever order the keys come in and whatever follows. */
  lemma BucketsRoundTrip(b: Buckets, keys: seq<int>, rest: seq<int>)
    requires forall i, j :: 0 <= i < j < |keys| ==> keys[i] != keys[j]
    requires forall k :: k in keys <==> k in b
    ensures |Written(b, keys)| == 1 + 2 * |b|
    ensures Read(Written(b, keys) + rest) == (b, Some(rest))
  {
    PairsLength(b, keys);
    DistinctSize(keys);
    forall k ensures k in KeySet(keys) <==> k in b.Keys {}
    assert KeySet(keys) == b.Keys;
    assert ReadPairs(Pairs(b, keys) + rest, |keys|) == b by { ReadPairsBack(b, keys, rest); }
    assert (Written(b, keys) + rest)[1..] == Pairs(b, keys) + rest;
  }

  /** A number that is not positive announces no pairs. */
  lemma NothingAnnounced(input: seq<int>)
    requires input != [] && input[0] <= 0
    ensures Read(input) == (map[], Some(input[1..]))
  {
  }

  lemma {:induction false} PairsSplit(b: Buckets, keys: seq<int>, m: nat)
    requires m <= |keys| && forall k :: k in keys ==> k in b
    ensures Pairs(b, keys) == Pairs(b, keys[..m]) + Pairs(b, keys[m..])
  {
    if m == 0 {
      assert keys[..0] == [] && keys[0..] == keys;
    } else {
      PairsSplit(b, keys[1..], m - 1);
      assert keys[..m][1..] == keys[1..][..m - 1] && keys[1..][m - 1..] == keys[m..];
    }
  }

  /** The buckets of the given days. */
  function Only(b: Buckets, keys: seq<int>): Buckets
    requires forall k :: k in keys ==> k in b
  {
    map k | k in keys :: b[k]
  }

  lemma SameBuckets(b: Buckets, keys: seq<int>, r: Buckets)
    requires forall k :: k in keys ==> k in b
    requires r.Keys == KeySet(keys) && forall k :: k in keys ==> r[k] == b[k]
    ensures r == Only(b, keys)
  {
    var o := Only(b, keys);
    assert r.Keys == o.Keys;
    forall k | k in r ensures r[k] == o[k] {}
  }

  /** The pairs of the first keys, from the beginning of what was written. */
  lemma FirstPairs(b: Buckets, keys: seq<int>, n: nat)
    requires (forall k :: k in keys ==> k in b) && n <= 2 * |keys|
    ensures |Pairs(b, keys)| == 2 * |keys|
    ensures ReadPairs(Pairs(b, keys)[..n], n / 2) == Only(b, keys[..n / 2])
  {
    hide Pairs, ReadPairs;
    var m := n / 2;
    PairsLength(b, keys);
    PairsLength(b, keys[..m]);
    PairsSplit(b, keys, m);
    var rest := Pairs(b, keys)[2 * m..n];
    assert Pairs(b, keys)[..n] == Pairs(b, keys[..m]) + rest;
    ReadPairsBack(b, keys[..m], rest);
    var r := ReadPairs(Pairs(b, keys)[..n], m);
    assert r == ReadPairs(Pairs(b, keys[..m]) + rest, |keys[..m]|);
    SameBuckets(b, keys[..m], r);
  }

  /** What is cut short is not read, but for the pairs that are there. */
  lemma TruncatedIsNotRead(b: Buckets, keys: seq<int>, n: nat)
    requires forall i, j :: 0 <= i < j < |keys| ==> keys[i] != keys[j]
    requires forall k :: k in keys <==> k in b
    requires n <= 1 + 2 * |keys|
    ensures |Written(b, keys)| == 1 + 2 * |keys|
    ensures Read(Written(b, keys)[..n]).1.Some? <==> n == |Written(b, keys)|
    ensures n > 0 ==> Read(Written(b, keys)[..n]).0 == Only(b, keys[..(n - 1) / 2])
  {
    hide Pairs, ReadPairs, Read;
    PairsLength(b, keys);
    DistinctSize(keys);
    forall k ensures k in KeySet(keys) <==> k in b.Keys {}
    assert KeySet(keys) == b.Keys;
    var w := Written(b, keys);
    if 0 < n {
      FirstPairs(b, keys, n - 1);
      assert w[..n][0] == |b| == |keys|;
      assert w[..n][1..] == Pairs(b, keys)[..n - 1];
      ReadSoFar(w[..n]);
    } else {
      ReadSoFar(w[..0]);
    }
  }

  lemma ReadSoFar(input: seq<int>)
    ensures input == [] ==> Read(input).1.None?
    ensures input != [] && 2 * input[0] >= |input| - 1 ==>
      && (Read(input).1.Some? <==> 2 * input[0] == |input| - 1)
      && Read(input).0 == ReadPairs(input[1..], (|input| - 1) / 2)
  {
  }
}
