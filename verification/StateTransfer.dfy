/** State transfer: what the externalizers of live and serialized sessions put on the wire
    and what a joining node reads back. Both readers return a replica. */
module StateTransfer {
  import opened Options
  import opened RulesEngine
  import opened SerializedSession
  import opened SessionCluster

  type Byte = b: int | 0 <= b < 256

  datatype Item = IntItem(value: int) | ByteItem(byte: Byte) | TextItem(text: string)

  /** How sessions and fact arrays become bytes. */
  datatype Codec<!S> = Codec(
    bytes: Saved<S> -> seq<Byte>, parse: seq<Byte> -> Saved<S>,
    factBytes: seq<Fact> -> seq<Byte>, parseFacts: seq<Byte> -> seq<Fact>)

  /** Marshalling loses nothing, and a session never marshals to zero bytes. */
  ghost predicate Faithful<S(!new)>(c: Codec<S>) {
    && (forall b :: c.bytes(b) != [] && c.parse(c.bytes(b)) == b)
    && (forall fs :: c.parseFacts(c.factBytes(fs)) == fs)
  }

  function Raw(bytes: seq<Byte>): (items: seq<Item>)
    ensures |items| == |bytes|
  {
    seq(|bytes|, i requires 0 <= i < |bytes| => ByteItem(bytes[i]))
  }

  function Unraw(items: seq<Item>): (bytes: seq<Byte>)
    ensures |bytes| == |items|
  {
    seq(|items|, i requires 0 <= i < |items| => if items[i].ByteItem? then items[i].byte else 0)
  }

  // Writers

  function WriteSerialized<S>(c: Codec<S>, z: Serialized<S>): seq<Item> {
    var facts := c.factBytes(z.buffer);
    (match z.session
     case None => [IntItem(0)]
     case Some(b) => [IntItem(|c.bytes(b)|)] + Raw(c.bytes(b)) + [TextItem(z.version)])
    + [IntItem(|facts|)] + Raw(facts)
  }

  function WriteLive<S>(c: Codec<S>, session: Option<KieSession<S>>, cur: Version): seq<Item> {
    match session
    case Some(k) => var b := c.bytes(Serialize(k)); [IntItem(|b|)] + Raw(b) + [TextItem(cur)]
    case None => [IntItem(0)]
  }

  // Readers: None when the stream does not have the expected shape

  /** Reads `readInt` bytes of a length-prefixed block. */
  function ReadBlock(input: seq<Item>): Option<(seq<Byte>, seq<Item>)> {
    if input == [] || !input[0].IntItem? || !(0 <= input[0].value < |input|) then None else
      var n := input[0].value;
      Some((Unraw(input[1..n + 1]), input[n + 1..]))
  }

  function ReadSession<S>(c: Codec<S>, cur: Version, input: seq<Item>): Option<(Serialized<S>, seq<Item>)> {
    match ReadBlock(input)
    case None => None
    case Some((block, rest)) =>
      if block == [] then Some((Empty(cur), rest))
      else if rest == [] || !rest[0].TextItem? then None
      else Some((Serialized(rest[0].text, Some(c.parse(block)), [], 0, Idle), rest[1..]))
  }

  function ReadLive<S>(c: Codec<S>, cur: Version, input: seq<Item>): Option<Serialized<S>> {
    match ReadSession(c, cur, input)
    case None => None
    case Some((z, _)) => Some(z)
  }

  function ReadSerialized<S>(c: Codec<S>, cur: Version, input: seq<Item>): Option<Serialized<S>> {
    match ReadSession(c, cur, input)
    case None => None
    case Some((z, rest)) =>
      match ReadBlock(rest)
      case None => None
      case Some((block, _)) => Some(z.(buffer := c.parseFacts(block)))
  }

  lemma ReadBlockOfRaw(bytes: seq<Byte>, rest: seq<Item>)
    ensures ReadBlock([IntItem(|bytes|)] + Raw(bytes) + rest) == Some((bytes, rest))
  {
    var input := [IntItem(|bytes|)] + Raw(bytes) + rest;
    assert input[1..|bytes| + 1] == Raw(bytes) && input[|bytes| + 1..] == rest;
    assert Unraw(Raw(bytes)) == bytes;
  }

  lemma ReadSessionBlock<S(!new)>(c: Codec<S>, cur: Version, b: Saved<S>, v: Version, rest: seq<Item>)
    requires Faithful(c)
    ensures ReadSession(c, cur, [IntItem(|c.bytes(b)|)] + Raw(c.bytes(b)) + [TextItem(v)] + rest)
         == Some((Serialized(v, Some(b), [], 0, Idle), rest))
  {
    var bs := c.bytes(b);
    ReadBlockOfRaw(bs, [TextItem(v)] + rest);
    assert [IntItem(|bs|)] + Raw(bs) + [TextItem(v)] + rest == [IntItem(|bs|)] + Raw(bs) + ([TextItem(v)] + rest);
    assert ([TextItem(v)] + rest)[1..] == rest;
  }

  lemma ReadNoSession<S>(c: Codec<S>, cur: Version, rest: seq<Item>)
    ensures ReadSession(c, cur, [IntItem(0)] + rest) == Some((Empty<S>(cur), rest))
  {
    ReadBlockOfRaw([], rest);
    assert [IntItem(0)] + Raw([]) + rest == [IntItem(0)] + rest;
  }

  /** The wire keeps bytes, version and buffer; a replica without bytes takes the reader's version. */
  lemma SerializedRoundTrip<S(!new)>(c: Codec<S>, z: Serialized<S>, cur: Version)
    requires Faithful(c)
    ensures ReadSerialized(c, cur, WriteSerialized(c, z))
         == Some(Serialized(if z.session.None? then cur else z.version, z.session, z.buffer, 0, Idle))
  {
    hide ReadSession, ReadBlock, Raw, Unraw;
    var facts := c.factBytes(z.buffer);
    var tail := [IntItem(|facts|)] + Raw(facts);
    ReadBlockOfRaw(facts, []);
    assert tail + [] == tail;
    match z.session
    case None =>
      ReadNoSession(c, cur, tail);
      assert WriteSerialized(c, z) == [IntItem(0)] + tail;
    case Some(b) =>
      ReadSessionBlock(c, cur, b, z.version, tail);
      assert WriteSerialized(c, z) == [IntItem(|c.bytes(b)|)] + Raw(c.bytes(b)) + [TextItem(z.version)] + tail;
  }

  lemma LiveRoundTrip<S(!new)>(c: Codec<S>, session: Option<KieSession<S>>, cur: Version)
    requires Faithful(c)
    ensures ReadLive(c, cur, WriteLive(c, session, cur)) == Some(Wrap(session, cur))
  {
    match session
    case None => ReadNoSession(c, cur, []); assert WriteLive(c, session, cur) == [IntItem(0)] + [];
    case Some(k) =>
      ReadSessionBlock(c, cur, Serialize(k), cur, []);
      assert WriteLive(c, session, cur) == WriteLive(c, session, cur) + [];
  }

  /** The joining step of the cluster machine is the writer followed by the reader. */
  lemma JoinReadsWhatWasWritten<S(!new)>(c: Codec<S>, copy: Copy<S>, cur: Version)
    requires Faithful(c) && !copy.Absent?
    ensures var read := if copy.Live? then ReadLive(c, cur, WriteLive(c, copy.session, cur))
                        else ReadSerialized(c, cur, WriteSerialized(c, copy.z));
            read.Some? && Transferred(copy, cur) == Stored(read.value)
  {
    match copy
    case Live(session) => LiveRoundTrip(c, session, cur);
    case Stored(z) => SerializedRoundTrip(c, z, cur);
  }

  /** A live session survives the trip and a later rebuild, whatever became of the rules. */
  lemma LiveSessionSurvives<S(!new)>(e: Engine<S>, cs: Channels, c: Codec<S>, k: KieSession<S>, later: Version)
    requires Faithful(c) && Lawful(e)
    ensures var read := ReadLive(c, k.version, WriteLive(c, Some(k), k.version));
            read.Some? && Rebuild(e, cs, read.value, later).Bare() == Migrate(e, k.Bare(), later)
  {
    LiveRoundTrip(c, Some(k), k.version);
    RebuildMeaning(e, cs, Wrap(Some(k), k.version), later);
  }

  /** The transfer of a replica keeps bytes, version and all its facts if and only if no fact is in
      the hands of a snapshot and, without bytes, the version is the reader's. */
  lemma TransferKeepsReplica<S(!new)>(c: Codec<S>, z: Serialized<S>, cur: Version)
    requires Faithful(c)
    ensures var read := ReadSerialized(c, cur, WriteSerialized(c, z));
            && read.Some?
            && ((read.value.version, read.value.session, read.value.buffer) == (z.version, z.session, z.job.Taken() + z.buffer)
                <==> z.job.Taken() == [] && (z.session.None? ==> z.version == cur))
  {
    SerializedRoundTrip(c, z, cur);
    if z.job.Taken() == [] {
      assert z.job.Taken() + z.buffer == z.buffer;
    } else {
      assert |z.job.Taken() + z.buffer| > |z.buffer|;
    }
  }

  /** The count is not on the wire: at its new place the replica submits a snapshot if and only if more
      facts than the maximum arrive there, however many it has brought with it. */
  lemma TransferRestartsTheCount<S(!new)>(e: Engine<S>, cs: Channels, c: Codec<S>, z: Serialized<S>, max: int, fs: seq<Fact>)
    requires Faithful(c) && fs != []
    ensures var read := ReadSerialized(c, z.version, WriteSerialized(c, z));
            && read.Some?
            && var z1 := AddAll(e, cs, read.value, z.version, max, fs);
               z1.buffer == z.buffer + fs && (z1.job.Queued? <==> |fs| > max)
  {
    SerializedRoundTrip(c, z, z.version);
    hide AddAll, ReadSerialized, WriteSerialized;
    AdditionsCount(e, cs, ReadSerialized(c, z.version, WriteSerialized(c, z)).value, z.version, max, fs);
  }

  /** The version that a replica without bytes loses on the wire matters: a fact that arrived
      under 1.0.0 is replayed under 2.0.0. */
  lemma TransferCanReplayUnderALaterVersion()
    ensures var z: Serialized<Points> := Serialized("1.0.0", None, [Fact(1, 10)], 1, Idle);
            && Meaning(RewardPoints(), z, "2.0.0").memory.earned == 10
            && CopyMeaning(RewardPoints(), Transferred(Stored(z), "2.0.0"), "2.0.0").memory.earned == 20
  {
    WeightOfOne("1.0.0");
    var e := RewardPoints();
    var fs := [Fact(1, 10)];
    assert [] + fs == fs && fs[..0] == [];
    assert ProcessAll(e, Loaded(e, "1.0.0", None), fs) == State("1.0.0", Points(10, 0), 1);
    assert Weight("2.0.0") == 2;
    assert ProcessAll(e, Loaded(e, "2.0.0", None), fs) == State("2.0.0", Points(20, 0), 1);
  }
}
