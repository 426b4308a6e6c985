/** Changing the rules version of the whole cluster: a put to the replicated cache whose listeners
    change the version of every node, and a put of the old version if one of them throws. */
module VersionUpdate {

  const RULES_GROUP_ID := "RULES_GROUP_ID"
  const RULES_ARTIFACT_ID := "RULES_ARTIFACT_ID"
  const RULES_VERSION := "RULES_VERSION"

  datatype ReleaseId = ReleaseId(group: string, artifact: string, version: string)

  // The listener of one node

  datatype Reaction = Applied(release: ReleaseId) | Thrown

  /** `fails` says whether the container of the node refuses the version. */
  function UpdateToVersion(r: ReleaseId, version: string, fails: bool): Reaction {
    if version == "" || fails then Thrown else Applied(r.(version := version))
  }

  /** The group and the artifact are compared with the key, not with the value. */
  function EventReceived(r: ReleaseId, key: string, value: string, fails: bool): Reaction {
    if (key == RULES_ARTIFACT_ID && r.artifact != key) || (key == RULES_GROUP_ID && r.group != key) then Thrown
    else if key == RULES_VERSION then UpdateToVersion(r, value, fails)
    else Applied(r)
  }

  /** So even putting the same group or artifact again is refused, unless it is named like the key. */
  lemma SameGroupIsRefused(r: ReleaseId, fails: bool)
    ensures EventReceived(r, RULES_GROUP_ID, r.group, fails) == (if r.group == RULES_GROUP_ID then Applied(r) else Thrown)
    ensures EventReceived(r, RULES_ARTIFACT_ID, r.artifact, fails) == (if r.artifact == RULES_ARTIFACT_ID then Applied(r) else Thrown)
  {
    assert RULES_GROUP_ID != RULES_ARTIFACT_ID by { assert RULES_GROUP_ID[6] != RULES_ARTIFACT_ID[6]; }
    assert RULES_VERSION != RULES_ARTIFACT_ID by { assert RULES_VERSION[6] != RULES_ARTIFACT_ID[6]; }
    assert RULES_VERSION != RULES_GROUP_ID by { assert RULES_VERSION[6] != RULES_GROUP_ID[6]; }
  }

  function After(r: ReleaseId, reaction: Reaction): ReleaseId {
    if reaction.Applied? then reaction.release else r
  }

  // The cluster

  /** The replicated entries and the release of every node. */
  datatype Grid = Grid(entries: map<string, string>, nodes: seq<ReleaseId>)

  /** What the outside decides about one put: the nodes that refuse the version, and whether the grid
      keeps a value for which a listener threw. */
  datatype Chance = Chance(refusing: set<nat>, kept: bool)

  predicate Threw(nodes: seq<ReleaseId>, key: string, value: string, refusing: set<nat>) {
    exists i :: 0 <= i < |nodes| && EventReceived(nodes[i], key, value, i in refusing).Thrown?
  }

  function Notified(nodes: seq<ReleaseId>, key: string, value: string, refusing: set<nat>): (r: seq<ReleaseId>)
    ensures |r| == |nodes|
    ensures forall i :: 0 <= i < |nodes| ==> r[i] == After(nodes[i], EventReceived(nodes[i], key, value, i in refusing))
  {
    seq(|nodes|, i requires 0 <= i < |nodes| => After(nodes[i], EventReceived(nodes[i], key, value, i in refusing)))
  }

  /** A put to an existing entry: every node is told, and the exception of any of them reaches the caller. */
  function Put(g: Grid, key: string, value: string, chance: Chance): (bool, Grid) {
    if key !in g.entries then (false, g.(entries := g.entries[key := value]))
    else
      var threw := Threw(g.nodes, key, value, chance.refusing);
      var entries := if threw && !chance.kept then g.entries else g.entries[key := value];
      (threw, Grid(entries, Notified(g.nodes, key, value, chance.refusing)))
  }

  // The release id

  function IndexOfColon(s: string): (r: int)
    ensures -1 <= r < |s|
    ensures r >= 0 ==> s[r] == ':' && ':' !in s[..r]
    ensures r < 0 ==> ':' !in s
  {
    if s == "" then -1 else if s[0] == ':' then 0
    else
      var r := IndexOfColon(s[1..]);
      assert r >= 0 ==> s[..r + 1] == [s[0]] + s[1..][..r];
      if r < 0 then -1 else r + 1
  }

  function Pieces(s: string): seq<string>
    decreases |s|
  {
    var i := IndexOfColon(s);
    if i < 0 then [s] else [s[..i]] + Pieces(s[i + 1..])
  }

  function DropEmpty(pieces: seq<string>): (r: seq<string>)
    ensures r != [] ==> r[|r| - 1] != ""
    ensures r <= pieces
  {
    if pieces != [] && pieces[|pieces| - 1] == "" then DropEmpty(pieces[..|pieces| - 1]) else pieces
  }

  /** `releaseId.split(":")`: empty pieces at the end are dropped. */
  function Split(s: string): seq<string> {
    if ':' in s then DropEmpty(Pieces(s)) else [s]
  }

  // The update

  datatype Outcome = Returned(releaseId: string) | IllegalArgument | IllegalState | Failed

  function Execute(g: Grid, releaseId: string, first: Chance, second: Chance): (Outcome, Grid)
    requires RULES_GROUP_ID in g.entries && RULES_ARTIFACT_ID in g.entries && RULES_VERSION in g.entries
  {
    var tokens := Split(releaseId);
    if |tokens| != 3 then (IllegalArgument, g)
    else if g.entries[RULES_GROUP_ID] != tokens[0] || g.entries[RULES_ARTIFACT_ID] != tokens[1] then (IllegalState, g)
    else
      var oldVersion := g.entries[RULES_VERSION];
      var (threw, g1) := Put(g, RULES_VERSION, tokens[2], first);
      if !threw then (Returned(releaseId), g1) else (Failed, Put(g1, RULES_VERSION, oldVersion, second).1)
  }

  /** The entries and all nodes are on one release. */
  ghost predicate Agree(g: Grid) {
    && RULES_GROUP_ID in g.entries && RULES_ARTIFACT_ID in g.entries && RULES_VERSION in g.entries
    && g.entries[RULES_VERSION] != ""
    && forall i :: 0 <= i < |g.nodes| ==> g.nodes[i].version == g.entries[RULES_VERSION]
  }

  ghost predicate Refused(g: Grid, chance: Chance) {
    exists i :: i in chance.refusing && i < |g.nodes|
  }

  lemma KeysDiffer()
    ensures RULES_VERSION != RULES_ARTIFACT_ID && RULES_VERSION != RULES_GROUP_ID && RULES_GROUP_ID != RULES_ARTIFACT_ID
  {
    assert RULES_VERSION[6] == 'V' && RULES_ARTIFACT_ID[6] == 'A' && RULES_GROUP_ID[6] == 'G';
  }

  lemma PutVersion(g: Grid, version: string, chance: Chance)
    requires RULES_VERSION in g.entries && version != ""
    ensures var (threw, g') := Put(g, RULES_VERSION, version, chance);
            && (threw <==> Refused(g, chance))
            && g'.entries == (if threw && !chance.kept then g.entries else g.entries[RULES_VERSION := version])
            && |g'.nodes| == |g.nodes|
            && forall i :: 0 <= i < |g.nodes| ==> g'.nodes[i] == if i in chance.refusing then g.nodes[i] else g.nodes[i].(version := version)
  {
    KeysDiffer();
    var (threw, g') := Put(g, RULES_VERSION, version, chance);
    if threw {
      var i :| 0 <= i < |g.nodes| && EventReceived(g.nodes[i], RULES_VERSION, version, i in chance.refusing).Thrown?;
      assert i in chance.refusing;
    }
    if Refused(g, chance) {
      var i :| i in chance.refusing && i < |g.nodes|;
      assert EventReceived(g.nodes[i], RULES_VERSION, version, i in chance.refusing).Thrown?;
    }
  }

  lemma SplitNonEmpty(s: string)
    requires |Split(s)| == 3
    ensures Split(s)[2] != ""
  {
  }

  /** An update leaves the cluster on one version exactly when nobody refuses the new version, or the
      nodes that took it take the old one back and the entry goes back too. */
  lemma ExecuteAgrees(g: Grid, releaseId: string, first: Chance, second: Chance)
    requires Agree(g)
    ensures var (outcome, g') := Execute(g, releaseId, first, second);
            var tokens := Split(releaseId);
            var before := g.entries[RULES_VERSION];
            && (outcome.IllegalArgument? <==> |tokens| != 3)
            && (outcome.IllegalArgument? || outcome.IllegalState? ==> g' == g)
            && (outcome.Returned? ==> Agree(g') && g'.entries[RULES_VERSION] == tokens[2] && !Refused(g, first))
            && (outcome.Failed? ==>
                && Refused(g, first)
                && (Agree(g') <==>
                    || tokens[2] == before
                    || ( && (forall i :: i in second.refusing && i < |g.nodes| ==> i in first.refusing)
                         && (Refused(g, second) ==> second.kept || !first.kept)))
                && (Agree(g') ==> g'.entries[RULES_VERSION] == before))
  {
    var tokens := Split(releaseId);
    KeysDiffer();
    if |tokens| == 3 {
      SplitNonEmpty(releaseId);
      PutVersion(g, tokens[2], first);
      var g1 := Put(g, RULES_VERSION, tokens[2], first).1;
      PutVersion(g1, g.entries[RULES_VERSION], second);
    }
  }

  // Which release ids are taken

  function Colons(k: nat): (r: string)
    ensures |r| == k && forall i :: 0 <= i < k ==> r[i] == ':'
  {
    seq(k, _ => ':')
  }

  predicate IsToken(s: string) {
    ':' !in s
  }

  /** `group:artifact:version`; colons behind it are ignored. */
  function Id(group: string, artifact: string, version: string, k: nat): string {
    group + ":" + (artifact + ":" + (version + Colons(k)))
  }

  lemma FirstPiece(a: string, rest: string)
    requires IsToken(a)
    ensures IndexOfColon(a + ":" + rest) == |a| && Pieces(a + ":" + rest) == [a] + Pieces(rest)
    ensures IndexOfColon(a) < 0 && Pieces(a) == [a]
  {
    var s := a + ":" + rest;
    assert s[|a|] == ':' && s[..|a|] == a && s[|a| + 1..] == rest;
    FirstColon(s, |a|);
  }

  lemma {:induction false} FirstColon(s: string, j: nat)
    requires j < |s| && s[j] == ':' && forall i :: 0 <= i < j ==> s[i] != ':'
    ensures IndexOfColon(s) == j
  {
    if j > 0 { FirstColon(s[1..], j - 1); }
  }

  lemma {:induction false} PiecesOfColons(v: string, k: nat)
    requires IsToken(v)
    ensures |Pieces(v + Colons(k))| == k + 1 && Pieces(v + Colons(k))[0] == v
    ensures forall i :: 1 <= i <= k ==> Pieces(v + Colons(k))[i] == ""
    decreases k
  {
    hide Pieces, Colons, IndexOfColon, IsToken;
    if k == 0 {
      MoreColons(v, "", 0);
      FirstPiece(v, "");
    } else {
      MoreColons(v, Colons(k - 1), k - 1);
      FirstPiece(v, Colons(k - 1));
      assert "" + Colons(k - 1) == Colons(k - 1);
      assert IsToken("") by { NoToken(); }
      PiecesOfColons("", k - 1);
    }
  }

  lemma NoToken()
    ensures IsToken("")
  {
  }

  lemma {:induction false} DropAllEmpty(pieces: seq<string>, n: nat)
    requires 0 < n <= |pieces| && pieces[n - 1] != "" && forall i :: n <= i < |pieces| ==> pieces[i] == ""
    ensures DropEmpty(pieces) == pieces[..n]
    decreases |pieces|
  {
    if n < |pieces| {
      DropAllEmpty(pieces[..|pieces| - 1], n);
      assert pieces[..|pieces| - 1][..n] == pieces[..n];
    } else {
      assert pieces[..n] == pieces;
    }
  }

  /** A release id is split into its three parts. */
  lemma SplitOfId(group: string, artifact: string, version: string, k: nat)
    requires IsToken(group) && IsToken(artifact) && IsToken(version) && version != ""
    ensures Split(Id(group, artifact, version, k)) == [group, artifact, version]
  {
    hide Pieces, DropEmpty, IndexOfColon, IsToken;
    var tail := version + Colons(k);
    var id := group + ":" + (artifact + ":" + tail);
    FirstPiece(group, artifact + ":" + tail);
    FirstPiece(artifact, tail);
    PiecesOfColons(version, k);
    hide Colons;
    var pieces := [group] + ([artifact] + Pieces(tail));
    DropAllEmpty(pieces, 3);
    assert pieces[..3] == [group, artifact, version];
    assert id[|group|] == ':';
  }

  lemma {:induction false} TokenPieces(s: string)
    ensures forall p :: p in Pieces(s) ==> IsToken(p)
    decreases |s|
  {
    var i := IndexOfColon(s);
    if i >= 0 { TokenPieces(s[i + 1..]); }
  }

  predicate AllEmpty(pieces: seq<string>) {
    forall i :: 0 <= i < |pieces| ==> pieces[i] == ""
  }

  /** A text of empty pieces is all colons. */
  lemma {:induction false} OnlyColons(s: string)
    requires AllEmpty(Pieces(s))
    ensures s == Colons(|s|)
    decreases |s|
  {
    if |Pieces(s)| > 1 {
      PiecesNext(s);
      var i := IndexOfColon(s);
      hide Pieces;
      assert Pieces(s)[0] == "";
      assert forall j :: 0 <= j < |Pieces(s)[1..]| ==> Pieces(s)[1..][j] == Pieces(s)[j + 1];
      OnlyColons(s[i + 1..]);
    } else {
      assert Pieces(s)[0] == "";
    }
  }

  lemma {:induction false} DroppedAreEmpty(pieces: seq<string>)
    ensures forall i :: |DropEmpty(pieces)| <= i < |pieces| ==> pieces[i] == ""
  {
    if pieces != [] && pieces[|pieces| - 1] == "" { DroppedAreEmpty(pieces[..|pieces| - 1]); }
  }

  lemma PiecesOf(s: string)
    ensures var i := IndexOfColon(s); Pieces(s) == if i < 0 then [s] else [s[..i]] + Pieces(s[i + 1..])
  {
  }

  lemma PiecesNext(s: string)
    requires |Pieces(s)| > 1
    ensures var i := IndexOfColon(s); i >= 0 && s == Pieces(s)[0] + ":" + s[i + 1..] && Pieces(s[i + 1..]) == Pieces(s)[1..]
  {
    PiecesOf(s);
    hide Pieces;
    var i := IndexOfColon(s);
    assert s == s[..i] + [s[i]] + s[i + 1..];
  }

  /** And whatever is split into three parts is such an id. */
  lemma IdOfSplit(s: string) returns (k: nat)
    requires |Split(s)| == 3
    ensures var t := Split(s); IsToken(t[0]) && IsToken(t[1]) && IsToken(t[2]) && t[2] != "" && s == Id(t[0], t[1], t[2], k)
  {
    var pieces := Pieces(s);
    assert Split(s) == DropEmpty(pieces);
    TokenPieces(s);
    DroppedAreEmpty(pieces);
    hide Pieces, DropEmpty, Split, IndexOfColon, IsToken;
    assert pieces[0] in pieces && pieces[1] in pieces && pieces[2] in pieces;
    PiecesNext(s);
    var s1 := s[IndexOfColon(s) + 1..];
    PiecesNext(s1);
    var s2 := s1[IndexOfColon(s1) + 1..];
    assert Pieces(s2) == pieces[2..];
    k := LastColons(s2);
  }

  lemma LastColons(s: string) returns (k: nat)
    requires Pieces(s) != [] && AllEmpty(Pieces(s)[1..])
    ensures s == Pieces(s)[0] + Colons(k)
  {
    hide Pieces, AllEmpty, Colons, IndexOfColon;
    if |Pieces(s)| == 1 {
      OnlyPiece(s);
      MoreColons(s, "", 0);
      k := 0;
    } else {
      PiecesNext(s);
      var rest := s[IndexOfColon(s) + 1..];
      OnlyColons(rest);
      MoreColons(Pieces(s)[0], rest, |rest|);
      k := |rest| + 1;
    }
  }

  lemma OnlyPiece(s: string)
    requires |Pieces(s)| == 1
    ensures Pieces(s)[0] == s
  {
  }

  lemma MoreColons(a: string, b: string, k: nat)
    ensures a + Colons(0) == a
    ensures b == Colons(k) ==> a + ":" + b == a + Colons(k + 1)
  {
    assert Colons(k + 1) == ":" + Colons(k);
    assert a + (":" + Colons(k)) == a + ":" + Colons(k);
  }

  ghost predicate IsId(s: string) {
    exists group, artifact, version, k :: IsToken(group) && IsToken(artifact) && IsToken(version) && version != "" && s == Id(group, artifact, version, k)
  }

  /** An argument is illegal exactly if it is no release id. */
  lemma ExecuteTakesIds(g: Grid, releaseId: string, first: Chance, second: Chance)
    requires RULES_GROUP_ID in g.entries && RULES_ARTIFACT_ID in g.entries && RULES_VERSION in g.entries
    ensures Execute(g, releaseId, first, second).0.IllegalArgument? <==> !IsId(releaseId)
  {
    hide Split, Put, Id;
    if |Split(releaseId)| == 3 {
      var k := IdOfSplit(releaseId);
      assert IsId(releaseId);
    }
    if IsId(releaseId) {
      var group, artifact, version, k :| IsToken(group) && IsToken(artifact) && IsToken(version) && version != "" && releaseId == Id(group, artifact, version, k);
      SplitOfId(group, artifact, version, k);
    }
  }

  /** Updating to a release: the state is illegal exactly if its group or its artifact is not that of the
      entries. Otherwise it returns exactly if nobody refuses, and then the entry and every node are on
      the version, and nothing else has changed. */
  lemma ExecuteId(g: Grid, group: string, artifact: string, version: string, k: nat, first: Chance, second: Chance)
    requires RULES_GROUP_ID in g.entries && RULES_ARTIFACT_ID in g.entries && RULES_VERSION in g.entries
    requires IsToken(group) && IsToken(artifact) && IsToken(version) && version != ""
    ensures var id := Id(group, artifact, version, k);
            var (outcome, g') := Execute(g, id, first, second);
            var same := group == g.entries[RULES_GROUP_ID] && artifact == g.entries[RULES_ARTIFACT_ID];
            && (outcome.IllegalState? <==> !same)
            && (outcome.IllegalState? ==> g' == g)
            && (same ==> outcome == if Refused(g, first) then Failed else Returned(id))
            && (outcome.Returned? ==>
                  && g'.entries == g.entries[RULES_VERSION := version] && |g'.nodes| == |g.nodes|
                  && forall i :: 0 <= i < |g.nodes| ==> g'.nodes[i] == g.nodes[i].(version := version))
  {
    hide Split, Put, Id;
    SplitOfId(group, artifact, version, k);
    PutVersion(g, version, first);
  }

  // Runs of updates

  datatype Request = Request(releaseId: string, first: Chance, second: Chance)

  function Run(g: Grid, requests: seq<Request>): Grid
    requires RULES_GROUP_ID in g.entries && RULES_ARTIFACT_ID in g.entries && RULES_VERSION in g.entries
    decreases |requests|
  {
    if requests == [] then g
    else
      KeepsKeys(g, requests[0]);
      Run(Execute(g, requests[0].releaseId, requests[0].first, requests[0].second).1, requests[1..])
  }

  lemma KeepsKeys(g: Grid, r: Request)
    requires RULES_GROUP_ID in g.entries && RULES_ARTIFACT_ID in g.entries && RULES_VERSION in g.entries
    ensures var g' := Execute(g, r.releaseId, r.first, r.second).1;
            && g'.entries.Keys == g.entries.Keys && |g'.nodes| == |g.nodes|
            && g'.entries[RULES_GROUP_ID] == g.entries[RULES_GROUP_ID]
            && g'.entries[RULES_ARTIFACT_ID] == g.entries[RULES_ARTIFACT_ID]
  {
    KeysDiffer();
  }

  /** If no node refuses to go back, any run of updates, one after the other, keeps the cluster on one
      version, whichever nodes refused which versions. */
  lemma {:induction false} RunAgrees(g: Grid, requests: seq<Request>)
    requires Agree(g) && forall r :: r in requests ==> !Refused(g, r.second)
    ensures Agree(Run(g, requests))
    decreases |requests|
  {
    hide Execute, Agree;
    if requests != [] {
      var r := requests[0];
      assert r in requests;
      AgreeKeys(g);
      KeepsKeys(g, r);
      NobodyStays(g, r.second, r.first);
      ExecuteAgrees(g, r.releaseId, r.first, r.second);
      var g' := Execute(g, r.releaseId, r.first, r.second).1;
      forall q | q in requests[1..] ensures !Refused(g', q.second) {
        assert q in requests;
      }
      RunAgrees(g', requests[1..]);
    }
  }

  lemma AgreeKeys(g: Grid)
    requires Agree(g)
    ensures RULES_GROUP_ID in g.entries && RULES_ARTIFACT_ID in g.entries && RULES_VERSION in g.entries
  {
  }

  lemma NobodyStays(g: Grid, second: Chance, first: Chance)
    requires !Refused(g, second)
    ensures forall i :: i in second.refusing && i < |g.nodes| ==> i in first.refusing
  {
  }

  // The objects

  class Cluster {
    var entries: map<string, string>   // the replicated cache
    var nodes: seq<ReleaseId>          // the release every rules manager is on

    constructor (entries: map<string, string>, nodes: seq<ReleaseId>)
      ensures State() == Grid(entries, nodes)
    {
      this.entries, this.nodes := entries, nodes;
    }

    ghost function State(): Grid
      reads this
    {
      Grid(entries, nodes)
    }

    /** `eventReceived` on node `i`. */
    method Deliver(i: nat, key: string, value: string, fails: bool) returns (threw: bool)
      requires i < |nodes|
      modifies `nodes
      ensures threw == EventReceived(old(nodes[i]), key, value, fails).Thrown?
      ensures nodes == old(nodes)[i := After(old(nodes[i]), EventReceived(old(nodes[i]), key, value, fails))]
    {
      var r := nodes[i];
      if (key == RULES_ARTIFACT_ID && r.artifact != key) || (key == RULES_GROUP_ID && r.group != key) {
        return true;
      }
      if key == RULES_VERSION {
        if value == "" || fails { return true; }
        nodes := nodes[i := r.(version := value)];
      }
      threw := false;
    }

    /** A put: the entry, then every listener; an exception of any of them is thrown in the end. */
    method PutEntry(key: string, value: string, chance: Chance) returns (threw: bool)
      modifies this
      ensures (threw, State()) == Put(old(State()), key, value, chance)
    {
      threw := false;
      if key !in entries {
        entries := entries[key := value];
        return;
      }
      ghost var before := nodes;
      for i := 0 to |nodes|
        invariant |nodes| == |before| && entries == old(entries)
        invariant forall j :: i <= j < |nodes| ==> nodes[j] == before[j]
        invariant forall j :: 0 <= j < i ==> nodes[j] == After(before[j], EventReceived(before[j], key, value, j in chance.refusing))
        invariant threw <==> exists j :: 0 <= j < i && EventReceived(before[j], key, value, j in chance.refusing).Thrown?
      {
        var t := Deliver(i, key, value, i in chance.refusing);
        threw := threw || t;
      }
      if !threw || chance.kept { entries := entries[key := value]; }
      assert nodes == Notified(before, key, value, chance.refusing);
    }

    /** `execute`; an exception is an outcome. */
    method ExecuteUpdate(releaseId: string, first: Chance, second: Chance) returns (outcome: Outcome)
      requires RULES_GROUP_ID in entries && RULES_ARTIFACT_ID in entries && RULES_VERSION in entries
      modifies this
      ensures (outcome, State()) == Execute(old(State()), releaseId, first, second)
    {
      hide Put, Split;
      var tokens := Split(releaseId);
      if |tokens| != 3 { return IllegalArgument; }
      var groupId, artifactId, version := tokens[0], tokens[1], tokens[2];
      if entries[RULES_GROUP_ID] != groupId || entries[RULES_ARTIFACT_ID] != artifactId { return IllegalState; }
      var oldVersion := entries[RULES_VERSION];
      var threw := PutEntry(RULES_VERSION, version, first);
      if threw {
        var _ := PutEntry(RULES_VERSION, oldVersion, second);
        return Failed;
      }
      outcome := Returned(releaseId);
    }
  }
}
