/** The smaller helpers of the client script (core.js): reading the game server out of the
    `serverId` query parameter, the id an alert is remembered by, the bounded store of
    alerts already shown, and the version label. The query string, `localStorage`, the
    clock and `Math.random()` are parameters. */
module ClientMisc {
  import opened Js
  import opened Seqs
  import opened Assoc

  // ---------------------------------------------------------------- serverId

  datatype ServerRef = ServerRef(region: string, amount: string)

  const Fallback := ServerRef("us", "1")

  /** `[A-Za-z0-9_]`: the word characters of `\b` without the `u` flag. */
  predicate WordChar(c: char) {
    ('a' <= c <= 'z') || ('A' <= c <= 'Z') || ('0' <= c <= '9') || c == '_'
  }

  /** `sid` begins with `region` (ASCII letters in either case), a dash and `amount`. */
  predicate Begins(sid: string, region: string, amount: string) {
    && |region| == 2
    && |sid| >= 3 + |amount|
    && LowerAsciiString(sid[..2]) == region
    && sid[2] == '-'
    && sid[3..3 + |amount|] == amount
  }

  /** ... and `\b` holds right after the amount. */
  predicate BeginsWord(sid: string, region: string, amount: string) {
    && Begins(sid, region, amount)
    && (|sid| == 3 + |amount| || !WordChar(sid[3 + |amount|]))
  }

  predicate Region(r: string) {
    r == "us" || r == "eu"
  }

  predicate Amount(a: string) {
    a == "1" || a == "5" || a == "20"
  }

  /** The region alternative `(us|eu)` matched case-insensitively, lower-cased. */
  function RegionOf(sid: string): (r: Option<string>)
    ensures r.Some? ==> Region(r.value) && |sid| >= 2 && LowerAsciiString(sid[..2]) == r.value
    ensures r.None? ==> |sid| < 2 || !Region(LowerAsciiString(sid[..2]))
  {
    if |sid| >= 2 && Region(LowerAsciiString(sid[..2])) then Some(LowerAsciiString(sid[..2])) else None
  }

  /** The alternatives `1|5|20`, tried in order after `region-`; with `word` set, only
      where `\b` follows. */
  function AmountOf(sid: string, word: bool): (a: Option<string>)
    requires |sid| >= 3
    ensures a.Some? ==> Amount(a.value) && Follows(sid, a.value, word)
    ensures a.None? ==> forall x :: Amount(x) ==> !Follows(sid, x, word)
  {
    if Follows(sid, "1", word) then Some("1")
    else if Follows(sid, "5", word) then Some("5")
    else if Follows(sid, "20", word) then Some("20")
    else None
  }

  predicate Follows(sid: string, amount: string, word: bool)
    requires |sid| >= 3
  {
    && |sid| >= 3 + |amount| && sid[3..3 + |amount|] == amount
    && (!word || |sid| == 3 + |amount| || !WordChar(sid[3 + |amount|]))
  }

  function Parse(sid: string, word: bool): (s: ServerRef)
    ensures Region(s.region) && Amount(s.amount)
  {
    match RegionOf(sid)
    case None => Fallback
    case Some(r) =>
      if |sid| >= 3 && sid[2] == '-' then
        match AmountOf(sid, word)
        case None => Fallback
        case Some(a) => ServerRef(r, a)
      else Fallback
  }

  /** `resolveServerKey`'s `{ region, amount, serverKey }`. */
  datatype ServerKey = ServerKey(region: string, amount: string, serverKey: string)

  /** `resolveServerKey()` on the `serverId` parameter (`''` when absent). */
  function ResolveServerKey(sid: string): (k: ServerKey)
    ensures k.serverKey == k.region + "-" + k.amount
  {
    var s := Parse(sid, false);
    ServerKey(s.region, s.amount, s.region + "-" + s.amount)
  }

  /** `parseServerId()` on the `serverId` parameter. */
  function ParseServerId(sid: string): (s: ServerRef)
    ensures Region(s.region) && Amount(s.amount)
    ensures s != Fallback ==> BeginsWord(sid, s.region, s.amount)
  {
    Parse(sid, true)
  }

  /** `resolveServerKey` picks the region and amount `serverId` begins with, and `us-1`
      when it begins with none of them. */
  lemma ResolveServerKeySpec(sid: string)
    ensures var k := ResolveServerKey(sid);
      && Region(k.region) && Amount(k.amount)
      && (forall r, a :: Region(r) && Amount(a) && Begins(sid, r, a) ==> k.region == r && k.amount == a)
      && ((forall r, a :: Region(r) && Amount(a) ==> !Begins(sid, r, a)) ==> k.region == "us" && k.amount == "1")
  {
    var k := ResolveServerKey(sid);
    forall r, a | Region(r) && Amount(a) && Begins(sid, r, a) ensures k.region == r && k.amount == a {
      AmountOfFollows(sid, false, a);
    }
    if Parse(sid, false) != Fallback {
      assert Begins(sid, k.region, k.amount);
    }
  }

  /** The three amounts begin with different digits, so the one that follows is found. */
  lemma AmountOfFollows(sid: string, word: bool, a: string)
    requires |sid| >= 3 && Amount(a) && Follows(sid, a, word)
    ensures AmountOf(sid, word) == Some(a)
  {
    assert sid[3] == a[0];
  }

  /** `parseServerId` picks the region and amount `serverId` begins with when a word
      boundary follows, and `us/1` otherwise. */
  lemma ParseServerIdSpec(sid: string)
    ensures var s := ParseServerId(sid);
      && Region(s.region) && Amount(s.amount)
      && (forall r, a :: Region(r) && Amount(a) && BeginsWord(sid, r, a) ==> s == ServerRef(r, a))
      && ((forall r, a :: Region(r) && Amount(a) ==> !BeginsWord(sid, r, a)) ==> s == Fallback)
  {
    var s := ParseServerId(sid);
    forall r, a | Region(r) && Amount(a) && BeginsWord(sid, r, a) ensures s == ServerRef(r, a) {
      AmountOfFollows(sid, true, a);
    }
    if s != Fallback {
      assert BeginsWord(sid, s.region, s.amount);
    }
  }

  /** Where `parseServerId` finds a server, `resolveServerKey` finds the same one. */
  lemma ParsersAgree(sid: string)
    requires ParseServerId(sid) != Fallback
    ensures ResolveServerKey(sid).region == ParseServerId(sid).region
    ensures ResolveServerKey(sid).amount == ParseServerId(sid).amount
  {
    ResolveServerKeySpec(sid);
    ParseServerIdSpec(sid);
    var s := ParseServerId(sid);
    assert BeginsWord(sid, s.region, s.amount);
  }

  /** ... but not the other way round: `eu-10` is `eu-1` to one and `us/1` to the other. */
  lemma ParsersDisagreeOnEu10()
    ensures ResolveServerKey("eu-10") == ServerKey("eu", "1", "eu-1")
    ensures ParseServerId("eu-10") == ServerRef("us", "1")
  {
    assert LowerAsciiString("eu-10"[..2]) == "eu";
    assert "eu-10"[3..4] == "1";
    assert "eu-10"[4] == '0';
    assert "eu-10"[3..5] == "10";
  }

  // ---------------------------------------------------------------- dbAlertUid

  /** The fields of an alert that may identify it, in the order they are tried. */
  datatype Alert = Alert(
    id: Scalar, uuid: Scalar, uid: Scalar, ts: Scalar, timestamp: Scalar,
    time: Scalar, createdAt: Scalar, expiresAt: Scalar, message: Scalar)

  function Candidates(a: Alert): (c: seq<Scalar>)
    ensures |c| == 9 && c[0] == a.id && c[1] == a.uuid && c[2] == a.uid && c[8] == a.message
  {
    [a.id, a.uuid, a.uid, a.ts, a.timestamp, a.time, a.createdAt, a.expiresAt, a.message]
  }

  function IsTruthy(): Scalar -> bool {
    (v: Scalar) => Truthy(v)
  }

  /** `String([...].filter(Boolean)[0] || Math.random()).slice(0, 128)`, where `random` is
      the string form of the random number. */
  function DbAlertUid(a: Alert, random: string): (r: string)
    ensures |r| <= 128
    ensures var c := Candidates(a);
      match FindFirst(c, IsTruthy())
      case Some(k) => r == Prefix(ToJsString(c[k]), 128) && (forall j :: 0 <= j < k ==> !Truthy(c[j]))
      case None => r == Prefix(random, 128) && (forall j :: 0 <= j < |c| ==> !Truthy(c[j]))
  {
    var s := Select(Candidates(a), IsTruthy());
    SelectHeadIsFirst(Candidates(a));
    Prefix(if s == [] then random else ToJsString(s[0]), 128)
  }

  /** `filter(Boolean)[0]` is the first truthy element. */
  lemma {:induction false} SelectHeadIsFirst(s: seq<Scalar>)
    ensures var f := Select(s, IsTruthy());
      match FindFirst(s, IsTruthy())
      case Some(k) => f != [] && f[0] == s[k]
      case None => f == []
  {
    if s != [] {
      SelectHeadIsFirst(s[1..]);
    }
  }

  /** Two alerts whose first truthy field has the same string form get the same uid. */
  lemma DbAlertUidStable(a: Alert, b: Alert, r1: string, r2: string)
    requires FindFirst(Candidates(a), IsTruthy()).Some? && FindFirst(Candidates(b), IsTruthy()).Some?
    requires ToJsString(Candidates(a)[FindFirst(Candidates(a), IsTruthy()).value])
          == ToJsString(Candidates(b)[FindFirst(Candidates(b), IsTruthy()).value])
    ensures DbAlertUid(a, r1) == DbAlertUid(b, r2)
  {
  }

  // ---------------------------------------------------------------- dbSeenStore

  /** `(a, b) => a[1] - b[1]`: older first. */
  function ByTime(): ((string, int), (string, int)) -> bool {
    (a: (string, int), b: (string, int)) => a.1 <= b.1
  }

  /** The stored map after `add(uid)` at time `now`: the uid stamped, then the 200
      newest entries, oldest first. */
  function SeenAfter(m: seq<(string, int)>, uid: string, now: int): seq<(string, int)> {
    Suffix(SortBy(Put(m, uid, now), ByTime()), 200)
  }

  /** The 200 newest entries, or all of them when fewer, oldest first, each one of the
      stamped map's. */
  lemma SeenAfterBounded(m: seq<(string, int)>, uid: string, now: int)
    ensures var r := SeenAfter(m, uid, now);
      var full := Put(m, uid, now);
      && |r| == (if |full| < 200 then |full| else 200)
      && SortedBy(r, ByTime())
      && multiset(r) <= multiset(full)
  {
    var full := Put(m, uid, now);
    var s := SortBy(full, ByTime());
    var r := SeenAfter(m, uid, now);
    assert TotalPreorder(ByTime());
    SortBySorted(full, ByTime());
    var cut := |s| - |r|;
    assert s == s[..cut] + r;
    assert multiset(s) == multiset(s[..cut]) + multiset(r);
  }

  /** The entries dropped are no newer than any kept: the store keeps the 200 newest. */
  lemma SeenAfterKeepsNewer(m: seq<(string, int)>, uid: string, now: int, e: (string, int))
    requires e in multiset(Put(m, uid, now)) - multiset(SeenAfter(m, uid, now))
    ensures forall i :: 0 <= i < |SeenAfter(m, uid, now)| ==> e.1 <= SeenAfter(m, uid, now)[i].1
  {
    var full := Put(m, uid, now);
    var s := SortBy(full, ByTime());
    var r := SeenAfter(m, uid, now);
    assert TotalPreorder(ByTime());
    SortBySorted(full, ByTime());
    var cut := |s| - |r|;
    assert s == s[..cut] + r;
    assert multiset(s) == multiset(s[..cut]) + multiset(r);
    assert e in multiset(s[..cut]);
    DroppedNoNewer(s, cut, e);
    forall i | 0 <= i < |r| ensures e.1 <= r[i].1 {
      assert r[i] == s[cut + i];
    }
  }

  /** In a time-ordered sequence, an entry before `cut` is no newer than any from `cut` on. */
  lemma DroppedNoNewer(s: seq<(string, int)>, cut: nat, e: (string, int))
    requires SortedBy(s, ByTime()) && cut <= |s|
    requires e in multiset(s[..cut])
    ensures forall i :: cut <= i < |s| ==> e.1 <= s[i].1
  {
    var j :| 0 <= j < cut && s[..cut][j] == e;
    assert s[j] == e;
  }

  /** No uid is stored twice. */
  lemma SeenAfterDistinct(m: seq<(string, int)>, uid: string, now: int)
    requires DistinctKeys(m)
    ensures DistinctKeys(SeenAfter(m, uid, now))
  {
    var full := Put(m, uid, now);
    var s := SortBy(full, ByTime());
    var r := SeenAfter(m, uid, now);
    var cut := |s| - |r|;
    PermutationKeepsDistinct(full, s);
    assert r == s[cut..];
    forall i, j | 0 <= i < j < |r| ensures r[i].0 != r[j].0 {
      assert s[cut + i].0 != s[cut + j].0;
    }
  }

  /** A reordering of an object's entries has no key twice either. */
  lemma PermutationKeepsDistinct(a: seq<(string, int)>, b: seq<(string, int)>)
    requires DistinctKeys(a) && multiset(a) == multiset(b)
    ensures DistinctKeys(b)
  {
    forall i, j | 0 <= i < j < |b| ensures b[i].0 != b[j].0 {
      if b[i].0 == b[j].0 {
        assert b[i] in multiset(a) && b[j] in multiset(a);
        var x :| 0 <= x < |a| && a[x] == b[i];
        var y :| 0 <= y < |a| && a[y] == b[j];
        assert x == y;
        assert b == b[..i] + [b[i]] + b[i + 1..j] + [b[j]] + b[j + 1..];
        assert multiset(b)[b[i]] >= 2;
        OnlyOnce(a, x);
      }
    }
  }

  /** In an object, an entry occurs once. */
  lemma OnlyOnce(a: seq<(string, int)>, x: nat)
    requires DistinctKeys(a) && x < |a|
    ensures multiset(a)[a[x]] == 1
  {
    assert a == a[..x] + [a[x]] + a[x + 1..];
    assert a[x] !in multiset(a[..x]);
    assert a[x] !in multiset(a[x + 1..]);
  }

  /** With a clock that moved on since every other entry, the alert just added is kept,
      as the newest entry. */
  lemma SeenAfterKeepsNewest(m: seq<(string, int)>, uid: string, now: int)
    requires DistinctKeys(m)
    requires forall i :: 0 <= i < |m| && m[i].0 != uid ==> m[i].1 < now
    ensures var r := SeenAfter(m, uid, now);
      |r| > 0 && r[|r| - 1] == (uid, now)
  {
    var full := Put(m, uid, now);
    var s := SortBy(full, ByTime());
    assert TotalPreorder(ByTime());
    SortBySorted(full, ByTime());
    PermutationKeepsDistinct(full, s);
    PutOthersOlder(m, uid, now);
    forall i | 0 <= i < |s| && s[i].0 != uid ensures s[i].1 < now {
      assert s[i] in multiset(full);
      var q :| 0 <= q < |full| && full[q] == s[i];
    }
    var k := IndexOf(full, uid).value;
    assert full[k] == (uid, now);
    assert full[k] in multiset(s);
    NewestLast(s, uid, now);
  }

  /** Stamping `uid` leaves every other entry as it was, so older than `now`. */
  lemma PutOthersOlder(m: seq<(string, int)>, uid: string, now: int)
    requires DistinctKeys(m)
    requires forall i :: 0 <= i < |m| && m[i].0 != uid ==> m[i].1 < now
    ensures var full := Put(m, uid, now);
      forall q :: 0 <= q < |full| && full[q].0 != uid ==> full[q].1 < now
  {
    var full := Put(m, uid, now);
    forall q | 0 <= q < |full| && full[q].0 != uid ensures full[q].1 < now {
      assert Get(full, full[q].0) == Get(m, full[q].0);
      var w := IndexOf(m, full[q].0).value;
      assert m[w] == full[q];
    }
  }

  /** In a time-ordered object where `(uid, now)` is the only entry not older than `now`,
      that entry is last. */
  lemma NewestLast(s: seq<(string, int)>, uid: string, now: int)
    requires DistinctKeys(s) && SortedBy(s, ByTime())
    requires (uid, now) in multiset(s)
    requires forall i :: 0 <= i < |s| && s[i].0 != uid ==> s[i].1 < now
    ensures |s| > 0 && s[|s| - 1] == (uid, now)
  {
    var p :| 0 <= p < |s| && s[p] == (uid, now);
    var last, y := |s| - 1, s[|s| - 1];
    assert p == last || y.0 != uid;
    assert p < last ==> ByTime()((uid, now), y);
  }

  /** `dbSeenStore()`: the map of alert uids to the time they were first shown, kept in
      `localStorage` as one JSON object. */
  class SeenStore {
    var seen: seq<(string, int)>

    constructor (seen: seq<(string, int)>)
      ensures this.seen == seen
    {
      this.seen := seen;
    }

    method Add(uid: string, now: int)
      modifies this
      ensures seen == SeenAfter(old(seen), uid, now)
    {
      var m := Put(seen, uid, now);
      var entries := SortBy(m, ByTime());
      seen := Suffix(entries, 200);
    }
  }

  // ---------------------------------------------------------------- UI_VER

  /** `^\d+\.\d+\.\d+$` */
  predicate Semver(v: string) {
    exists i, j :: 0 < i && i + 1 < j && j + 1 < |v| && VersionAt(v, i, j)
  }

  predicate VersionAt(v: string, i: nat, j: nat)
    requires i < j < |v|
  {
    v[i] == '.' && v[j] == '.' && AllDigits(v[..i]) && AllDigits(v[i + 1..j]) && AllDigits(v[j + 1..])
  }

  /** `version.replace(/^v?/, '')`: one leading `v` dropped. */
  function StripV(s: string): (r: string)
    ensures s != [] && s[0] == 'v' ==> s == "v" + r
    ensures s == [] || s[0] != 'v' ==> r == s
  {
    if s != [] && s[0] == 'v' then s[1..] else s
  }

  /** The version label: the stored `db_core_ver_v1` value if it is `x.y.z`, else the
      script's own version without a leading `v`, else `0.0.0`, always behind a `v`. */
  function UiVersion(stored: Option<string>, scriptVersion: Option<string>): (r: string)
    ensures |r| >= 2 && r[0] == 'v'
    ensures stored.Some? && Semver(stored.value) ==> r[1..] == stored.value
  {
    if stored.Some? && stored.value != "" && Semver(stored.value) then "v" + stored.value
    else
      var s := if scriptVersion.Some? then StripV(scriptVersion.value) else "";
      "v" + (if s == "" then "0.0.0" else s)
  }

  /** The label is a `v` and a non-empty version; it is the stored value when that value
      is `x.y.z`; otherwise it is built from the script version alone. */
  lemma UiVersionSpec(stored: Option<string>, scriptVersion: Option<string>)
    ensures var r := UiVersion(stored, scriptVersion);
      && |r| >= 2 && r[0] == 'v'
      && (stored.Some? && Semver(stored.value) ==> r == "v" + stored.value)
      && (!(stored.Some? && Semver(stored.value)) ==> r == UiVersion(None, scriptVersion))
      && (scriptVersion.Some? && Semver(scriptVersion.value) && !(stored.Some? && Semver(stored.value)) ==>
            r == "v" + scriptVersion.value)
  {
    if scriptVersion.Some? && Semver(scriptVersion.value) {
      var v := scriptVersion.value;
      var i, j :| 0 < i && i + 1 < j && j + 1 < |v| && VersionAt(v, i, j);
      assert '0' <= v[0] <= '9';
    }
  }
}
