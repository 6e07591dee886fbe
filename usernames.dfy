/** The username-tracker half of the user server (userserver.js): the `players` object of
    the usernames document, keyed by player id, each value a record of the player's real
    name and how often each in-game name was seen. It is the `players` field of
    `UsernameDoc`; the document's network load and save are outside the model. */
module Usernames {
  import opened Js
  import opened Seqs
  import opened Assoc
  import UserKeys

  datatype NameCount = NameCount(name: string, count: int)

  /** A value of the `players` object: a player record, or a scalar that some earlier
      writer left there. `topUsernames` is written by the cleanup pass only. */
  datatype Player =
    | Record(realName: Scalar, usernames: seq<(string, int)>, topUsernames: Option<seq<NameCount>>)
    | Primitive(v: Scalar)

  /** Both levels are JavaScript objects: no id and no name twice. */
  predicate WellFormed(players: seq<(string, Player)>) {
    && DistinctKeys(players)
    && forall i :: 0 <= i < |players| ==> players[i].1.Record? ==> DistinctKeys(players[i].1.usernames)
  }

  datatype Outcome =
    | Ok             // 200 ok
    | MissingFields  // 400 missing_fields
    | Unauthorized   // 401 unauthorized
    | ReadFailed     // 500 read_failed
    | WriteFailed    // 500 write_failed

  datatype Reply = Reply(outcome: Outcome, players: seq<(string, Player)>)

  /** `u[name] || 0` */
  function CountOf(u: seq<(string, int)>, name: string): (c: int)
    ensures name !in Keys(u) ==> c == 0
    ensures name in Keys(u) ==> Get(u, name) == Some(c)
    ensures DistinctKeys(u) ==> forall i :: 0 <= i < |u| && u[i].0 == name ==> c == u[i].1
  {
    match Get(u, name)
    case None => 0
    case Some(c) => c
  }

  /** `!data.players[id]`: no entry, or a falsy scalar. */
  predicate Absent(p: Option<Player>) {
    p.None? || (p.value.Primitive? && !Truthy(p.value.v))
  }

  /** The record both handlers work on: the stored entry, or
      `{ realName: null, usernames: {} }` when there is none. */
  function Current(players: seq<(string, Player)>, id: string): (p: Player)
    ensures Absent(Get(players, id)) ==> p == Record(Null, [], None)
    ensures !Absent(Get(players, id)) ==> Get(players, id) == Some(p)
  {
    var e := Get(players, id);
    if Absent(e) then Record(Null, [], None) else e.value
  }

  /** POST /api/trackJoin: one more sighting of `name` for player `privyId`. A truthy
      scalar in the player's place has no `usernames`, so the update throws and nothing is
      saved. */
  function TrackJoinOn(players: seq<(string, Player)>, privyId: Scalar, name: Scalar): (r: Reply)
    ensures !Truthy(privyId) || !Truthy(name) ==> r.outcome == MissingFields
    ensures Truthy(privyId) && Truthy(name) ==>
      (r.outcome == WriteFailed <==> Current(players, ToJsString(privyId)).Primitive?)
    ensures r.outcome != Ok ==> r.players == players
    ensures r.outcome in {Ok, MissingFields, WriteFailed}
  {
    if !Truthy(privyId) || !Truthy(name) then Reply(MissingFields, players)
    else
      var id, n := ToJsString(privyId), ToJsString(name);
      var p := Current(players, id);
      if p.Primitive? then Reply(WriteFailed, players)
      else Reply(Ok, Put(players, id, Sighted(p, n)))
  }

  /** `p.usernames[name] = (p.usernames[name] || 0) + 1` */
  function Sighted(p: Player, n: string): Player
    requires p.Record?
  {
    p.(usernames := Put(p.usernames, n, CountOf(p.usernames, n) + 1))
  }

  /** POST /api/updateRealName, past the admin gate. The module runs in strict mode, so
      setting `realName` on a truthy scalar throws and nothing is saved. */
  function UpdateRealNameOn(players: seq<(string, Player)>, privyId: Scalar, realName: Scalar): (r: Reply)
    ensures !Truthy(privyId) || !Truthy(realName) ==> r.outcome == MissingFields
    ensures Truthy(privyId) && Truthy(realName) ==>
      (r.outcome == WriteFailed <==> Current(players, ToJsString(privyId)).Primitive?)
    ensures r.outcome != Ok ==> r.players == players
    ensures r.outcome in {Ok, MissingFields, WriteFailed}
  {
    if !Truthy(privyId) || !Truthy(realName) then Reply(MissingFields, players)
    else
      var id := ToJsString(privyId);
      var p := Current(players, id);
      if p.Primitive? then Reply(WriteFailed, players)
      else Reply(Ok, Put(players, id, p.(realName := realName)))
  }

  /** trackJoin adds exactly one sighting of the name, touches no other name of the player,
      no other field of the record and no other player. */
  lemma TrackJoinCounts(players: seq<(string, Player)>, privyId: Scalar, name: Scalar)
    requires WellFormed(players)
    requires TrackJoinOn(players, privyId, name).outcome == Ok
    ensures var r := TrackJoinOn(players, privyId, name).players;
      var id, n := ToJsString(privyId), ToJsString(name);
      var before := Current(players, id);
      var after := Get(r, id).value;
      && WellFormed(r)
      && after.Record? && before.Record?
      && CountOf(after.usernames, n) == CountOf(before.usernames, n) + 1
      && (forall m :: m != n ==> Get(after.usernames, m) == Get(before.usernames, m))
      && after.realName == before.realName
      && after.topUsernames == before.topUsernames
      && (forall k :: k != id ==> Get(r, k) == Get(players, k))
  {
    var r := TrackJoinOn(players, privyId, name).players;
    var id, n := ToJsString(privyId), ToJsString(name);
    var before := Current(players, id);
    var after := Sighted(before, n);
    assert r == Put(players, id, after);
    if !Absent(Get(players, id)) {
      var i := IndexOf(players, id).value;
      assert before == players[i].1;
    }
    assert DistinctKeys(before.usernames);
    forall i | 0 <= i < |r| && r[i].1.Record? ensures DistinctKeys(r[i].1.usernames) {
      if r[i].0 == id {
        assert Get(r, id) == Some(r[i].1);
      } else {
        assert Get(r, r[i].0) == Some(r[i].1);
        var j := IndexOf(players, r[i].0).value;
        assert Get(players, r[i].0) == Some(players[j].1);
      }
    }
  }

  /** updateRealName sets the real name and leaves the sightings and every other player as
      they were. */
  lemma UpdateRealNameSets(players: seq<(string, Player)>, privyId: Scalar, realName: Scalar)
    requires WellFormed(players)
    requires UpdateRealNameOn(players, privyId, realName).outcome == Ok
    ensures var r := UpdateRealNameOn(players, privyId, realName).players;
      var id := ToJsString(privyId);
      var before := Current(players, id);
      && DistinctKeys(r)
      && Get(r, id) == Some(Record(realName, before.usernames, before.topUsernames))
      && (forall k :: k != id ==> Get(r, k) == Get(players, k))
  {
  }

  // ---------------------------------------------------------------- /api/mapping

  /** The comparator `(a, b) => b[1] - a[1]`: larger counts first. */
  function ByCount(): ((string, int), (string, int)) -> bool {
    (a: (string, int), b: (string, int)) => a.1 >= b.1
  }

  lemma ByCountTotal()
    ensures TotalPreorder(ByCount())
  {
  }

  /** `Object.entries(u).sort(byCount).slice(0, 3)` */
  function Top3(u: seq<(string, int)>): (r: seq<(string, int)>)
    ensures |r| == if |u| < 3 then |u| else 3
  {
    Prefix(SortBy(u, ByCount()), 3)
  }

  /** `.map(([name, count]) => ({ name, count }))` */
  function AsNameCounts(s: seq<(string, int)>): (r: seq<NameCount>)
    ensures |r| == |s| && forall i :: 0 <= i < |s| ==> r[i] == NameCount(s[i].0, s[i].1)
  {
    seq(|s|, i requires 0 <= i < |s| => NameCount(s[i].0, s[i].1))
  }

  /** The `topUsernames` field: the three most frequent names, or all of them when fewer. */
  function TopUsernames(u: seq<(string, int)>): (r: seq<NameCount>)
    ensures |r| == if |u| < 3 then |u| else 3
  {
    AsNameCounts(Top3(u))
  }

  /** The top names: at most three, by non-increasing count, each drawn from `u`. */
  lemma TopUsernamesSpec(u: seq<(string, int)>)
    ensures var r := TopUsernames(u);
      && |r| == (if |u| < 3 then |u| else 3)
      && (forall i, j :: 0 <= i < j < |r| ==> r[i].count >= r[j].count)
      && (forall i :: 0 <= i < |r| ==> (r[i].name, r[i].count) in u)
      && multiset(Top3(u)) <= multiset(u)
  {
    var s := SortBy(u, ByCount());
    var t := Top3(u);
    var r := TopUsernames(u);
    ByCountTotal();
    SortBySorted(u, ByCount());
    assert s == t + s[|t|..];
    assert multiset(s) == multiset(t) + multiset(s[|t|..]);
    forall i | 0 <= i < |r| ensures (r[i].name, r[i].count) in u {
      assert t[i] == s[i] && s[i] in multiset(u);
    }
  }

  /** No entry left out of the top names counts more than one that was kept. */
  lemma TopUsernamesMaximal(u: seq<(string, int)>, e: (string, int))
    requires e in multiset(u) - multiset(Top3(u))
    ensures forall i :: 0 <= i < |TopUsernames(u)| ==> e.1 <= TopUsernames(u)[i].count
  {
    var s := SortBy(u, ByCount());
    var t := Top3(u);
    var r := TopUsernames(u);
    ByCountTotal();
    SortBySorted(u, ByCount());
    assert s == t + s[|t|..];
    assert multiset(s) == multiset(t) + multiset(s[|t|..]);
    assert e in multiset(s[|t|..]);
    var j :| |t| <= j < |s| && s[j] == e;
    forall i | 0 <= i < |r| ensures e.1 <= r[i].count {
      assert ByCount()(s[i], s[j]);
    }
  }

  /** What `/api/mapping` reports for one player. */
  datatype MapEntry = MapEntry(realName: Scalar, topUsernames: seq<NameCount>, allUsernames: seq<(string, int)>)

  /** One player's mapping entry; `None` when reading `.usernames` of a `null` entry throws.
      Another scalar has no fields and maps to no names. */
  function MapOf(p: Player): (r: Option<MapEntry>)
    ensures r.None? <==> p == Primitive(Null)
    ensures r.Some? ==> Truthy(r.value.realName) || r.value.realName == Null
    ensures p.Record? ==>
      && r.value.allUsernames == p.usernames
      && r.value.topUsernames == TopUsernames(p.usernames)
      && (Truthy(p.realName) ==> r.value.realName == p.realName)
      && (!Truthy(p.realName) ==> r.value.realName == Null)
    ensures p.Primitive? && r.Some? ==> r.value == MapEntry(Null, [], [])
  {
    match p
    case Record(rn, u, _) => Some(MapEntry(Or(rn, Null), TopUsernames(u), u))
    case Primitive(v) => if v == Null then None else Some(MapEntry(Null, [], []))
  }

  // ---------------------------------------------------------------- the usernames document

  class UsernameDoc {
    const adminToken: string
    var players: seq<(string, Player)>

    constructor (adminToken: string, players: seq<(string, Player)>)
      ensures this.adminToken == adminToken && this.players == players
    {
      this.adminToken := adminToken;
      this.players := players;
    }

    method TrackJoin(privyId: Scalar, name: Scalar) returns (o: Outcome)
      modifies this
      ensures var r := TrackJoinOn(old(players), privyId, name); o == r.outcome && players == r.players
    {
      if !Truthy(privyId) || !Truthy(name) {
        return MissingFields;
      }
      var id, n := ToJsString(privyId), ToJsString(name);
      var p := Current(players, id);
      if p.Primitive? {
        return WriteFailed;
      }
      players := Put(players, id, Sighted(p, n));
      o := Ok;
    }

    method UpdateRealName(header: Option<string>, privyId: Scalar, realName: Scalar) returns (o: Outcome)
      modifies this
      ensures !UserKeys.AdminOk(adminToken, header) ==> o == Unauthorized && players == old(players)
      ensures UserKeys.AdminOk(adminToken, header) ==>
        var r := UpdateRealNameOn(old(players), privyId, realName); o == r.outcome && players == r.players
    {
      if !UserKeys.AdminOk(adminToken, header) {
        return Unauthorized;
      }
      if !Truthy(privyId) || !Truthy(realName) {
        return MissingFields;
      }
      var id := ToJsString(privyId);
      var p := Current(players, id);
      if p.Primitive? {
        return WriteFailed;
      }
      players := Put(players, id, p.(realName := realName));
      o := Ok;
    }

    /** GET /api/mapping: one entry per player, in the players' order. */
    method Mapping() returns (o: Outcome, out: seq<(string, MapEntry)>)
      ensures o in {Ok, ReadFailed}
      ensures o == ReadFailed <==> exists i :: 0 <= i < |players| && players[i].1 == Primitive(Null)
      ensures o == Ok ==> |out| == |players|
      ensures o == Ok ==> forall i :: 0 <= i < |players| ==>
        out[i].0 == players[i].0 && MapOf(players[i].1) == Some(out[i].1)
    {
      out := [];
      var i := 0;
      while i < |players|
        invariant 0 <= i <= |players| && |out| == i
        invariant forall j :: 0 <= j < i ==> out[j].0 == players[j].0 && MapOf(players[j].1) == Some(out[j].1)
      {
        var (id, p) := players[i];
        var e := MapOf(p);
        if e.None? {
          return ReadFailed, [];
        }
        out := out + [(id, e.value)];
        i := i + 1;
      }
      o := Ok;
    }
  }
}
