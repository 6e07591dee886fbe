/** The license server (server.js): a file of license keys, each redeemable once, which
    an administrator can add, revoke and unrevoke. Each handler reads the store, yields
    one outcome and either changes one record (and writes the store) or changes
    nothing. The store file is the `keys` field of `KeyStore`; the clock is a parameter. */
module LicenseServer {
  import opened Js
  import opened Seqs

  /** One record of the key file. A missing `used` or `revoked` reads as false. */
  datatype KeyEntry = KeyEntry(
    key: string,
    used: bool,
    revoked: bool,
    createdAt: Option<string>,
    usedAt: Option<string>,
    revokedAt: Option<string>)

  /** The handlers' replies: HTTP status and error code. */
  datatype Outcome =
    | Ok                   // 200
    | MissingKey           // 400 missing_key
    | NoKeys               // 400 no_keys
    | Unauthorized         // 401 unauthorized
    | Revoked              // 403 revoked
    | Unredeemed           // 403 unredeemed
    | InvalidKey           // 404 invalid_key
    | InvalidOrUnredeemed  // 404 invalid_or_unredeemed
    | NotFound             // 404 not_found
    | AlreadyUsed          // 409 already_used
    | ServerError          // 500 server_error

  datatype Reply = Reply(outcome: Outcome, keys: seq<KeyEntry>)

  /** A key file in the shape the handlers keep it: no key twice, and every used key
      carries the time it was used. */
  predicate WellFormed(keys: seq<KeyEntry>) {
    && (forall i, j :: 0 <= i < j < |keys| ==> keys[i].key != keys[j].key)
    && (forall i :: 0 <= i < |keys| && keys[i].used ==> keys[i].usedAt.Some?)
  }

  /** `String(k || '').trim()` */
  function NormalizeKey(k: Scalar): (r: string)
    ensures r == "" || (!IsSpace(r[0]) && !IsSpace(r[|r| - 1]))
    ensures !Truthy(k) ==> r == ""
    ensures Truthy(k) ==> (r == "" <==> AllSpace(ToJsString(k)))
    ensures Truthy(k) ==> r == Trim(ToJsString(k))
  {
    if Truthy(k) then
      TrimEmptyIff(ToJsString(k));
      Trim(ToJsString(k))
    else ""
  }

  /** `req.headers['x-admin-token'] || ''` compared with the configured token: admin
      access needs a configured token and a header equal to it. */
  function RequireAdmin(adminToken: string, header: Option<string>): (ok: bool)
    ensures ok <==> adminToken != "" && header == Some(adminToken)
  {
    var t := if header.Some? then header.value else "";
    adminToken != "" && t == adminToken
  }

  function KeyIs(key: string): KeyEntry -> bool {
    (e: KeyEntry) => e.key == key
  }

  /** `store.keys.find(k => k.key === key)`: the first record with that key. */
  function FindKey(keys: seq<KeyEntry>, key: string): (r: Option<nat>)
    ensures r.Some? ==> r.value < |keys| && keys[r.value].key == key
    ensures r.Some? ==> forall j :: 0 <= j < r.value ==> keys[j].key != key
    ensures r.None? ==> forall j :: 0 <= j < |keys| ==> keys[j].key != key
  {
    FindFirst(keys, KeyIs(key))
  }

  function Lookup(keys: seq<KeyEntry>, key: string): (r: Option<KeyEntry>)
    ensures r.Some? <==> exists j :: 0 <= j < |keys| && keys[j].key == key
  {
    match FindKey(keys, key)
    case None => None
    case Some(i) => Some(keys[i])
  }

  /** POST /api/license/redeem on a normalised key. */
  function RedeemOn(keys: seq<KeyEntry>, key: string, now: string): (r: Reply)
    ensures key == "" ==> r.outcome == MissingKey
    ensures key != "" && Lookup(keys, key).None? ==> r.outcome == InvalidKey
    ensures key != "" && Lookup(keys, key).Some? ==>
      var e := Lookup(keys, key).value;
      && (e.revoked ==> r.outcome == Revoked)
      && (!e.revoked && e.used ==> r.outcome == AlreadyUsed)
      && (!e.revoked && !e.used ==> r.outcome == Ok)
    ensures r.outcome != Ok ==> r.keys == keys
    ensures r.outcome == Ok ==>
      var i := FindKey(keys, key).value;
      && |r.keys| == |keys|
      && r.keys[i] == keys[i].(used := true, usedAt := Some(now))
      && forall j :: 0 <= j < |keys| && j != i ==> r.keys[j] == keys[j]
    ensures WellFormed(keys) ==> WellFormed(r.keys)
  {
    if key == "" then Reply(MissingKey, keys)
    else match FindKey(keys, key)
      case None => Reply(InvalidKey, keys)
      case Some(i) =>
        if keys[i].revoked then Reply(Revoked, keys)
        else if keys[i].used then Reply(AlreadyUsed, keys)
        else Reply(Ok, keys[i := keys[i].(used := true, usedAt := Some(now))])
  }

  /** POST /api/license/check on a normalised key: only a key that exists, is not revoked
      and has been redeemed passes. */
  function CheckOn(keys: seq<KeyEntry>, key: string): (o: Outcome)
    ensures o == Ok <==> key != "" && Lookup(keys, key).Some?
                         && !Lookup(keys, key).value.revoked && Lookup(keys, key).value.used
    ensures key == "" ==> o == MissingKey
    ensures key != "" && Lookup(keys, key).None? ==> o == InvalidOrUnredeemed
    ensures key != "" && Lookup(keys, key).Some? && Lookup(keys, key).value.revoked ==> o == Revoked
    ensures (key != "" && Lookup(keys, key).Some? && !Lookup(keys, key).value.revoked
             && !Lookup(keys, key).value.used) ==> o == Unredeemed
  {
    if key == "" then MissingKey
    else match Lookup(keys, key)
      case None => InvalidOrUnredeemed
      case Some(e) =>
        if e.revoked then Revoked else if !e.used then Unredeemed else Ok
  }

  /** The keys an add-keys request asks for: `keys.map(normalizeKey).filter(Boolean)`,
      or none when `keys` is not an array. */
  function RequestedKeys(body: Option<seq<Scalar>>): (ks: seq<string>)
    ensures forall i :: 0 <= i < |ks| ==> ks[i] != ""
    ensures body.Some? ==> forall i :: 0 <= i < |body.value| && NormalizeKey(body.value[i]) != ""
                                       ==> NormalizeKey(body.value[i]) in ks
    ensures body.Some? ==> forall i :: 0 <= i < |ks| ==>
                             exists j :: 0 <= j < |body.value| && ks[i] == NormalizeKey(body.value[j])
    ensures body.None? ==> ks == []
  {
    if body.None? then []
    else
      NonEmptyNormalized(body.value);
      Select(NormalizeAll(body.value), NonEmpty)
  }

  /** `keys.map(normalizeKey)` */
  function NormalizeAll(vs: seq<Scalar>): (r: seq<string>)
    ensures |r| == |vs| && forall i :: 0 <= i < |vs| ==> r[i] == NormalizeKey(vs[i])
  {
    seq(|vs|, i requires 0 <= i < |vs| => NormalizeKey(vs[i]))
  }

  lemma NonEmptyNormalized(vs: seq<Scalar>)
    ensures var ks := Select(NormalizeAll(vs), NonEmpty);
      && (forall i :: 0 <= i < |vs| && NormalizeKey(vs[i]) != "" ==> NormalizeKey(vs[i]) in ks)
      && (forall i :: 0 <= i < |ks| ==> exists j :: 0 <= j < |vs| && ks[i] == NormalizeKey(vs[j]))
  {
    var all := NormalizeAll(vs);
    var ks := Select(all, NonEmpty);
    forall i | 0 <= i < |vs| && NormalizeKey(vs[i]) != "" ensures NormalizeKey(vs[i]) in ks {
      assert all[i] == NormalizeKey(vs[i]) && NonEmpty(all[i]);
    }
    forall i | 0 <= i < |ks| ensures exists j :: 0 <= j < |vs| && ks[i] == NormalizeKey(vs[j]) {
      var j :| 0 <= j < |all| && all[j] == ks[i];
    }
  }

  predicate NonEmpty(k: string) {
    k != ""
  }

  function FreshEntry(key: string, now: string): KeyEntry {
    KeyEntry(key, false, false, Some(now), None, None)
  }

  /** One turn of the add-keys loop. */
  function AddOne(keys: seq<KeyEntry>, k: string, now: string): seq<KeyEntry> {
    if FindKey(keys, k).Some? then keys else keys + [FreshEntry(k, now)]
  }

  predicate HasKey(keys: seq<KeyEntry>, k: string) {
    exists j :: 0 <= j < |keys| && keys[j].key == k
  }

  /** The add-keys loop over the requested keys `ks`, in order. */
  function AddAll(keys: seq<KeyEntry>, ks: seq<string>, now: string): (r: seq<KeyEntry>)
    ensures |r| >= |keys| && r[..|keys|] == keys
    decreases |ks|
  {
    if ks == [] then keys else AddOne(AddAll(keys, ks[..|ks| - 1], now), ks[|ks| - 1], now)
  }

  /** `r` is `keys` followed, once each, by a fresh record for requested keys of `ks` not
      in `keys`, and holds every requested key. */
  ghost predicate Appends(keys: seq<KeyEntry>, ks: seq<string>, r: seq<KeyEntry>, now: string) {
    && |keys| <= |r| && r[..|keys|] == keys
    && (forall j :: |keys| <= j < |r| ==>
          r[j] == FreshEntry(r[j].key, now) && r[j].key in ks && !HasKey(keys, r[j].key))
    && (forall i, j :: |keys| <= i < j < |r| ==> r[i].key != r[j].key)
    && (forall k :: k in ks ==> HasKey(r, k))
  }

  /** Add-keys keeps the existing records and appends, once each, a fresh record for every
      requested key not yet present, and nothing else. */
  lemma {:induction false} AddAllAppends(keys: seq<KeyEntry>, ks: seq<string>, now: string)
    ensures Appends(keys, ks, AddAll(keys, ks, now), now)
    decreases |ks|
  {
    if ks != [] {
      var init := ks[..|ks| - 1];
      var k := ks[|ks| - 1];
      AddAllAppends(keys, init, now);
      assert ks == init + [k];
      AddOneAppends(keys, init, k, AddAll(keys, init, now), now);
    }
  }

  /** One turn of the loop keeps `Appends`. */
  lemma AddOneAppends(keys: seq<KeyEntry>, init: seq<string>, k: string, before: seq<KeyEntry>, now: string)
    requires Appends(keys, init, before, now)
    ensures Appends(keys, init + [k], AddOne(before, k, now), now)
  {
    var ks := init + [k];
    var r := AddOne(before, k, now);
    assert forall x :: x in ks ==> x in init || x == k;
    if FindKey(before, k).Some? {
      assert r == before;
      assert HasKey(r, k);
    } else {
      assert r == before + [FreshEntry(k, now)];
      assert r[..|keys|] == keys;
      assert !HasKey(keys, k) by {
        forall j | 0 <= j < |keys| ensures keys[j].key != k {
          assert before[j] == keys[j];
        }
      }
      forall x | x in ks ensures HasKey(r, x) {
        if x in init {
          var j :| 0 <= j < |before| && before[j].key == x;
          assert r[j].key == x;
        } else {
          assert r[|before|].key == k;
        }
      }
    }
  }

  /** Add-keys keeps a well-formed store well-formed. */
  lemma AddAllWellFormed(keys: seq<KeyEntry>, ks: seq<string>, now: string)
    requires WellFormed(keys)
    ensures WellFormed(AddAll(keys, ks, now))
  {
    var r := AddAll(keys, ks, now);
    AddAllAppends(keys, ks, now);
    forall i, j | 0 <= i < j < |r| ensures r[i].key != r[j].key {
      if j < |keys| {
        assert r[i] == keys[i] && r[j] == keys[j];
      } else if i < |keys| {
        AppendedIsNew(keys, ks, now, j);
        KeptKeyBefore(keys, r, i);
      }
    }
  }

  lemma AppendedIsNew(keys: seq<KeyEntry>, ks: seq<string>, now: string, j: nat)
    requires |keys| <= j < |AddAll(keys, ks, now)|
    ensures !HasKey(keys, AddAll(keys, ks, now)[j].key)
  {
    AddAllAppends(keys, ks, now);
  }

  /** The keys of the records at positions `from..`. */
  function KeysFrom(r: seq<KeyEntry>, from: nat): (s: set<string>)
    requires from <= |r|
    ensures forall k :: k in s <==> exists j :: from <= j < |r| && r[j].key == k
    decreases |r| - from
  {
    if from == |r| then {} else {r[from].key} + KeysFrom(r, from + 1)
  }

  /** Records whose keys differ number as many as their keys. */
  lemma {:induction false} KeysFromCount(r: seq<KeyEntry>, from: nat)
    requires from <= |r|
    requires forall i, j :: from <= i < j < |r| ==> r[i].key != r[j].key
    ensures |KeysFrom(r, from)| == |r| - from
    decreases |r| - from
  {
    if from < |r| {
      KeysFromCount(r, from + 1);
      assert r[from].key !in KeysFrom(r, from + 1);
    }
  }

  /** How many records an add-keys request appends: the requested keys not yet present,
      each counted once however often the request repeats it. */
  lemma AddAllCount(keys: seq<KeyEntry>, ks: seq<string>, now: string)
    ensures |AddAll(keys, ks, now)| - |keys| == |set k | k in ks && !HasKey(keys, k)|
  {
    var r := AddAll(keys, ks, now);
    AddAllAppends(keys, ks, now);
    var wanted := set k | k in ks && !HasKey(keys, k);
    var got := KeysFrom(r, |keys|);
    assert forall i :: 0 <= i < |keys| ==> r[i] == keys[i];
    forall k | k in wanted ensures k in got {
      var i :| 0 <= i < |r| && r[i].key == k;
      assert |keys| <= i;
    }
    forall k | k in got ensures k in wanted {
      var j :| |keys| <= j < |r| && r[j].key == k;
      assert !HasKey(keys, r[j].key);
    }
    assert got == wanted;
    KeysFromCount(r, |keys|);
  }

  /** POST /api/admin/revoke, as written: the handler assigns the undeclared identifier
      `True`, which throws a ReferenceError before anything is written, so a revoke of an
      existing key answers server_error and the store stays as it was. */
  function RevokeAsWritten(keys: seq<KeyEntry>, key: string): (r: Reply)
    ensures r.keys == keys
    ensures r.outcome == (if key == "" then MissingKey
                          else if Lookup(keys, key).None? then NotFound
                          else ServerError)
  {
    if key == "" then Reply(MissingKey, keys)
    else match FindKey(keys, key)
      case None => Reply(NotFound, keys)
      case Some(_) => Reply(ServerError, keys)
  }

  /** POST /api/admin/revoke as evidently intended: the found record becomes revoked and
      records when; no other record changes. */
  function RevokeOn(keys: seq<KeyEntry>, key: string, now: string): (r: Reply)
    ensures key == "" ==> r.outcome == MissingKey && r.keys == keys
    ensures key != "" && Lookup(keys, key).None? ==> r.outcome == NotFound && r.keys == keys
    ensures key != "" && Lookup(keys, key).Some? ==>
      var i := FindKey(keys, key).value;
      && r.outcome == Ok
      && |r.keys| == |keys|
      && r.keys[i] == keys[i].(revoked := true, revokedAt := Some(now))
      && forall j :: 0 <= j < |keys| && j != i ==> r.keys[j] == keys[j]
    ensures WellFormed(keys) ==> WellFormed(r.keys)
  {
    if key == "" then Reply(MissingKey, keys)
    else match FindKey(keys, key)
      case None => Reply(NotFound, keys)
      case Some(i) => Reply(Ok, keys[i := keys[i].(revoked := true, revokedAt := Some(now))])
  }

  /** POST /api/admin/unrevoke: the found record is no longer revoked and loses its
      revocation time; no other record changes. */
  function UnrevokeOn(keys: seq<KeyEntry>, key: string): (r: Reply)
    ensures key == "" ==> r.outcome == MissingKey && r.keys == keys
    ensures key != "" && Lookup(keys, key).None? ==> r.outcome == NotFound && r.keys == keys
    ensures key != "" && Lookup(keys, key).Some? ==>
      var i := FindKey(keys, key).value;
      && r.outcome == Ok
      && |r.keys| == |keys|
      && r.keys[i] == keys[i].(revoked := false, revokedAt := None)
      && forall j :: 0 <= j < |keys| && j != i ==> r.keys[j] == keys[j]
    ensures WellFormed(keys) ==> WellFormed(r.keys)
  {
    if key == "" then Reply(MissingKey, keys)
    else match FindKey(keys, key)
      case None => Reply(NotFound, keys)
      case Some(i) => Reply(Ok, keys[i := keys[i].(revoked := false, revokedAt := None)])
  }

  // ---------------------------------------------------------------- the key file

  /** The key file and the configured admin token. */
  class KeyStore {
    const adminToken: string
    var keys: seq<KeyEntry>

    constructor (adminToken: string, keys: seq<KeyEntry>)
      ensures this.adminToken == adminToken && this.keys == keys
    {
      this.adminToken := adminToken;
      this.keys := keys;
    }

    method Redeem(raw: Scalar, now: string) returns (o: Outcome, usedAt: Option<string>)
      modifies this
      ensures var r := RedeemOn(old(keys), NormalizeKey(raw), now); o == r.outcome && keys == r.keys
      ensures o == Ok ==> usedAt == Some(now)
    {
      usedAt := None;
      var key := NormalizeKey(raw);
      if key == "" {
        return MissingKey, usedAt;
      }
      var found := FindKey(keys, key);
      if found.None? {
        return InvalidKey, usedAt;
      }
      var i := found.value;
      if keys[i].revoked {
        return Revoked, usedAt;
      }
      if keys[i].used {
        return AlreadyUsed, usedAt;
      }
      keys := keys[i := keys[i].(used := true, usedAt := Some(now))];
      o, usedAt := Ok, Some(now);
    }

    /** Never changes the store. */
    method Check(raw: Scalar) returns (o: Outcome)
      ensures o == CheckOn(keys, NormalizeKey(raw))
    {
      var key := NormalizeKey(raw);
      if key == "" {
        return MissingKey;
      }
      var found := Lookup(keys, key);
      if found.None? {
        return InvalidOrUnredeemed;
      }
      if found.value.revoked {
        return Revoked;
      }
      if !found.value.used {
        return Unredeemed;
      }
      o := Ok;
    }

    method AddKeys(header: Option<string>, body: Option<seq<Scalar>>, now: string)
      returns (o: Outcome, added: nat, total: nat)
      modifies this
      ensures !RequireAdmin(adminToken, header) ==> o == Unauthorized && keys == old(keys)
      ensures RequireAdmin(adminToken, header) && RequestedKeys(body) == [] ==>
                o == NoKeys && keys == old(keys)
      ensures RequireAdmin(adminToken, header) && RequestedKeys(body) != [] ==>
                && o == Ok
                && keys == AddAll(old(keys), RequestedKeys(body), now)
                && added == |keys| - |old(keys)|
                && total == |keys|
    {
      added, total := 0, |keys|;
      if !RequireAdmin(adminToken, header) {
        return Unauthorized, added, total;
      }
      var ks := RequestedKeys(body);
      if |ks| == 0 {
        return NoKeys, added, total;
      }
      added := AppendMissing(ks, now);
      o, total := Ok, |keys|;
    }

    /** The loop of add-keys: appends a fresh record for each key of `ks` not yet present. */
    method AppendMissing(ks: seq<string>, now: string) returns (added: nat)
      modifies this
      ensures keys == AddAll(old(keys), ks, now)
      ensures added == |keys| - |old(keys)|
    {
      ghost var start := keys;
      added := 0;
      var i := 0;
      while i < |ks|
        invariant 0 <= i <= |ks|
        invariant keys == AddAll(start, ks[..i], now)
        invariant added == |keys| - |start|
      {
        assert ks[..i + 1][..i] == ks[..i] && ks[..i + 1][i] == ks[i];
        assert AddAll(start, ks[..i + 1], now) == AddOne(keys, ks[i], now);
        if FindKey(keys, ks[i]).None? {
          keys := keys + [FreshEntry(ks[i], now)];
          added := added + 1;
        }
        i := i + 1;
      }
      assert ks[..i] == ks;
    }

    /** The handler as written: see `RevokeAsWritten`. */
    method Revoke(header: Option<string>, raw: Scalar) returns (o: Outcome)
      ensures !RequireAdmin(adminToken, header) ==> o == Unauthorized
      ensures RequireAdmin(adminToken, header) ==> o == RevokeAsWritten(keys, NormalizeKey(raw)).outcome
    {
      if !RequireAdmin(adminToken, header) {
        return Unauthorized;
      }
      var key := NormalizeKey(raw);
      if key == "" {
        return MissingKey;
      }
      var found := FindKey(keys, key);
      if found.None? {
        return NotFound;
      }
      // `entry.revoked = True` throws before the store is written
      o := ServerError;
    }

    /** The handler as evidently intended: see `RevokeOn`. */
    method RevokeCorrected(header: Option<string>, raw: Scalar, now: string) returns (o: Outcome)
      modifies this
      ensures !RequireAdmin(adminToken, header) ==> o == Unauthorized && keys == old(keys)
      ensures RequireAdmin(adminToken, header) ==>
        var r := RevokeOn(old(keys), NormalizeKey(raw), now); o == r.outcome && keys == r.keys
    {
      if !RequireAdmin(adminToken, header) {
        return Unauthorized;
      }
      var key := NormalizeKey(raw);
      if key == "" {
        return MissingKey;
      }
      var found := FindKey(keys, key);
      if found.None? {
        return NotFound;
      }
      var i := found.value;
      keys := keys[i := keys[i].(revoked := true, revokedAt := Some(now))];
      o := Ok;
    }

    method Unrevoke(header: Option<string>, raw: Scalar) returns (o: Outcome)
      modifies this
      ensures !RequireAdmin(adminToken, header) ==> o == Unauthorized && keys == old(keys)
      ensures RequireAdmin(adminToken, header) ==>
        var r := UnrevokeOn(old(keys), NormalizeKey(raw)); o == r.outcome && keys == r.keys
    {
      if !RequireAdmin(adminToken, header) {
        return Unauthorized;
      }
      var key := NormalizeKey(raw);
      if key == "" {
        return MissingKey;
      }
      var found := FindKey(keys, key);
      if found.None? {
        return NotFound;
      }
      var i := found.value;
      keys := keys[i := keys[i].(revoked := false, revokedAt := None)];
      o := Ok;
    }
  }

  // ---------------------------------------------------------------- the key lifecycle

  /** A key redeems once: redeeming it again answers already_used. */
  lemma RedeemIsSingleUse(keys: seq<KeyEntry>, key: string, t1: string, t2: string)
    requires RedeemOn(keys, key, t1).outcome == Ok
    ensures RedeemOn(RedeemOn(keys, key, t1).keys, key, t2).outcome == AlreadyUsed
  {
    var i := FindKey(keys, key).value;
    var k1 := RedeemOn(keys, key, t1).keys;
    assert FindKey(k1, key) == Some(i);
  }

  /** A freshly redeemed key passes the check, and the check passes only redeemed keys. */
  lemma RedeemThenCheck(keys: seq<KeyEntry>, key: string, now: string)
    requires RedeemOn(keys, key, now).outcome == Ok
    ensures CheckOn(RedeemOn(keys, key, now).keys, key) == Ok
    ensures CheckOn(keys, key) == Unredeemed
  {
    var i := FindKey(keys, key).value;
    assert FindKey(RedeemOn(keys, key, now).keys, key) == Some(i);
  }

  /** Once revoked (as intended), a key neither redeems nor passes the check. */
  lemma RevokeBlocksRedeemAndCheck(keys: seq<KeyEntry>, key: string, t1: string, t2: string)
    requires RevokeOn(keys, key, t1).outcome == Ok
    ensures RedeemOn(RevokeOn(keys, key, t1).keys, key, t2).outcome == Revoked
    ensures CheckOn(RevokeOn(keys, key, t1).keys, key) == Revoked
  {
    var i := FindKey(keys, key).value;
    assert FindKey(RevokeOn(keys, key, t1).keys, key) == Some(i);
  }

  /** Unrevoking undoes a revocation of a record that had none: the store is as before. */
  lemma UnrevokeUndoesRevoke(keys: seq<KeyEntry>, key: string, now: string)
    requires RevokeOn(keys, key, now).outcome == Ok
    requires var e := Lookup(keys, key).value; !e.revoked && e.revokedAt.None?
    ensures UnrevokeOn(RevokeOn(keys, key, now).keys, key) == Reply(Ok, keys)
  {
    var i := FindKey(keys, key).value;
    var k1 := RevokeOn(keys, key, now).keys;
    assert FindKey(k1, key) == Some(i);
    assert UnrevokeOn(k1, key).keys == keys;
  }

  /** As written, revoke never takes effect: a key "revoked" this way still redeems. */
  lemma RevokeAsWrittenHasNoEffect(keys: seq<KeyEntry>, key: string, now: string)
    requires key != "" && Lookup(keys, key).Some?
    ensures RevokeAsWritten(keys, key).outcome == ServerError
    ensures RedeemOn(RevokeAsWritten(keys, key).keys, key, now) == RedeemOn(keys, key, now)
  {
  }

  /** The input that shows it: an unused key "K1", revoked and then redeemed. */
  lemma RevokeAsWrittenExample()
    ensures var keys := [KeyEntry("K1", false, false, None, None, None)];
      && RevokeAsWritten(keys, "K1").outcome == ServerError
      && RedeemOn(RevokeAsWritten(keys, "K1").keys, "K1", "t").outcome == Ok
      && RedeemOn(RevokeOn(keys, "K1", "t").keys, "K1", "t").outcome == Revoked
  {
    var keys := [KeyEntry("K1", false, false, None, None, None)];
    assert FindKey(keys, "K1") == Some(0);
    assert FindKey(RevokeOn(keys, "K1", "t").keys, "K1") == Some(0);
  }

  /** A key just added redeems. */
  lemma AddedKeyRedeems(keys: seq<KeyEntry>, ks: seq<string>, key: string, t1: string, t2: string)
    requires key in ks && key != "" && Lookup(keys, key).None?
    ensures RedeemOn(AddAll(keys, ks, t1), key, t2).outcome == Ok
  {
    var r := AddAll(keys, ks, t1);
    AddAllAppends(keys, ks, t1);
    assert HasKey(r, key);
    var w :| 0 <= w < |r| && r[w].key == key;
    assert FindKey(r, key).Some?;
    var i := FindKey(r, key).value;
    assert forall m :: 0 <= m < |keys| ==> keys[m].key != key;
    KeptKeyBefore(keys, r, i);
    assert r[i] == FreshEntry(key, t1);
  }

  /** A record at a position below `|keys|` is the old one. */
  lemma KeptKeyBefore(keys: seq<KeyEntry>, r: seq<KeyEntry>, i: nat)
    requires |keys| <= |r| && r[..|keys|] == keys && i < |r|
    ensures i < |keys| ==> r[i] == keys[i]
  {
    if i < |keys| {
      assert r[..|keys|][i] == r[i];
    }
  }
}
