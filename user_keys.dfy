/** The key-binding half of the user server (userserver.js): a document of license keys,
    each bound on first registration to a caller-supplied proof. The document is the
    `keys` field of `UserKeyDoc`; loading and saving it over the network, the clock and
    the key generator are outside the model (the latter two are parameters). */
module UserKeys {
  import opened Js
  import opened Seqs

  /** One record of the key document. A missing `used` or `revoked` reads as false, a
      missing or empty `boundProof` as `None`. */
  datatype UserKey = UserKey(
    key: string,
    used: bool,
    revoked: bool,
    createdAt: Option<string>,
    usedAt: Option<string>,
    boundProof: Option<string>)

  /** The handlers' replies. */
  datatype Outcome =
    | Ok             // 200 ok
    | Usable         // 200 usable, not yet used
    | Bound          // 200 valid, bound to this proof
    | Already        // 200 already bound to this proof, nothing saved
    | MissingKey     // 400 missing_key
    | MissingProof   // 400 missing_proof
    | Unauthorized   // 401 unauthorized
    | Revoked        // 403 revoked
    | NotFound       // 404 not_found
    | BoundMismatch  // 409 bound_mismatch
    | AlreadyUsed    // 409 already_used

  datatype Reply = Reply(outcome: Outcome, keys: seq<UserKey>)

  // ---------------------------------------------------------------- admin gate

  /** `req.header("admin-token") !== ADMIN_TOKEN` rejects, as written: with no token
      configured (`ADMIN_TOKEN` is ""), an empty `admin-token` header is let through. */
  function AdminOkAsWritten(adminToken: string, header: Option<string>): (ok: bool)
    ensures ok <==> header == Some(adminToken)
  {
    header.Some? && header.value == adminToken
  }

  /** The admin gate as evidently intended: a configured token, and a header equal to it. */
  function AdminOk(adminToken: string, header: Option<string>): (ok: bool)
    ensures ok ==> AdminOkAsWritten(adminToken, header)
    ensures ok <==> adminToken != "" && header == Some(adminToken)
  {
    adminToken != "" && AdminOkAsWritten(adminToken, header)
  }

  /** The two gates differ only when no token is configured, and there an empty header
      passes the gate as written. */
  lemma AdminGateFinding(adminToken: string, header: Option<string>)
    ensures adminToken != "" ==> (AdminOk(adminToken, header) <==> AdminOkAsWritten(adminToken, header))
    ensures AdminOkAsWritten("", Some("")) && !AdminOk("", Some(""))
  {
  }

  // ---------------------------------------------------------------- proofs

  /** `proof === found.boundProof`, as written: only a string proof can equal the stored
      `String(proof)`, so a numeric proof never matches what registering it stored. */
  function ProofMatchesAsWritten(proof: Scalar, bound: string): (b: bool)
    ensures b ==> proof.Str?
    ensures proof.Str? ==> (b <==> proof.s == bound)
  {
    proof == Str(bound)
  }

  /** The comparison as evidently intended: the proof in the form it was stored. */
  function ProofMatches(proof: Scalar, bound: string): (b: bool)
    ensures proof.Str? ==> (b <==> proof.s == bound)
    ensures proof.Num? ==> (b <==> bound == DecimalString(proof.n))
  {
    ToJsString(proof) == bound
  }

  /** For string proofs the two comparisons agree; a number proof is where they part. */
  lemma ProofComparisonFinding(proof: Scalar, bound: string)
    ensures proof.Str? ==> (ProofMatches(proof, bound) <==> ProofMatchesAsWritten(proof, bound))
    ensures ProofMatches(Num(123), ToJsString(Num(123)))
    ensures !ProofMatchesAsWritten(Num(123), ToJsString(Num(123)))
  {
    Decimal123();
  }

  /** The string form the number 123 is stored under. */
  lemma Decimal123()
    ensures ToJsString(Num(123)) == "123"
  {
    assert NatDigits(123) == NatDigits(12) + [DigitChar(3)];
    assert NatDigits(12) == NatDigits(1) + [DigitChar(2)];
  }

  // ---------------------------------------------------------------- handlers

  function KeyIs(key: Scalar): UserKey -> bool {
    (e: UserKey) => Str(e.key) == key
  }

  /** `data.keys.find((k) => k.key === key)`: only a string key can match. */
  function FindKey(keys: seq<UserKey>, key: Scalar): (r: Option<nat>)
    ensures r.Some? ==> r.value < |keys| && key == Str(keys[r.value].key)
    ensures r.Some? ==> forall j :: 0 <= j < r.value ==> key != Str(keys[j].key)
    ensures r.None? ==> forall j :: 0 <= j < |keys| ==> key != Str(keys[j].key)
  {
    FindFirst(keys, KeyIs(key))
  }

  /** A used record bound to this proof. */
  function BoundTo(e: UserKey, proof: Scalar): (b: bool)
    ensures b <==> Truthy(proof) && e.boundProof == Some(ToJsString(proof)) && ToJsString(proof) != ""
  {
    e.boundProof.Some? && e.boundProof.value != "" && Truthy(proof) && ProofMatches(proof, e.boundProof.value)
  }

  /** POST /api/validate. Reads the document, never changes it. */
  function Validate(keys: seq<UserKey>, key: Scalar, proof: Scalar): (o: Outcome)
    ensures !Truthy(key) ==> o == MissingKey
    ensures Truthy(key) && FindKey(keys, key).None? ==> o == NotFound
    ensures Truthy(key) && FindKey(keys, key).Some? ==>
      var e := keys[FindKey(keys, key).value];
      && (e.revoked ==> o == Revoked)
      && (!e.revoked && !e.used ==> o == Usable)
      && (!e.revoked && e.used ==> (o == Bound <==> BoundTo(e, proof)))
      && (!e.revoked && e.used ==> o in {Bound, BoundMismatch})
  {
    if !Truthy(key) then MissingKey
    else match FindKey(keys, key)
      case None => NotFound
      case Some(i) =>
        var e := keys[i];
        if e.revoked then Revoked
        else if !e.used then Usable
        else if BoundTo(e, proof) then Bound
        else BoundMismatch
  }

  /** POST /api/validate as written: the bound test compares the proof itself with `===`. */
  function ValidateAsWritten(keys: seq<UserKey>, key: Scalar, proof: Scalar): (o: Outcome)
    ensures proof.Str? ==> o == Validate(keys, key, proof)
    ensures o == Validate(keys, key, proof) || (o == BoundMismatch && Validate(keys, key, proof) == Bound)
  {
    if !Truthy(key) then MissingKey
    else match FindKey(keys, key)
      case None => NotFound
      case Some(i) =>
        var e := keys[i];
        if e.revoked then Revoked
        else if !e.used then Usable
        else if e.boundProof.Some? && e.boundProof.value != "" && Truthy(proof)
             && ProofMatchesAsWritten(proof, e.boundProof.value) then Bound
        else BoundMismatch
  }

  /** POST /api/register: binds an unused key to `String(proof)`; re-registering with the
      same proof answers `Already` and saves nothing. */
  function RegisterOn(keys: seq<UserKey>, key: Scalar, proof: Scalar, now: string): (r: Reply)
    ensures !Truthy(key) ==> r.outcome == MissingKey
    ensures Truthy(key) && !Truthy(proof) ==> r.outcome == MissingProof
    ensures Truthy(key) && Truthy(proof) && FindKey(keys, key).None? ==> r.outcome == NotFound
    ensures Truthy(key) && Truthy(proof) && FindKey(keys, key).Some? ==>
      var e := keys[FindKey(keys, key).value];
      && (e.revoked ==> r.outcome == Revoked)
      && (!e.revoked && e.used && BoundTo(e, proof) ==> r.outcome == Already)
      && (!e.revoked && e.used && !BoundTo(e, proof) ==> r.outcome == AlreadyUsed)
      && (!e.revoked && !e.used ==> r.outcome == Ok)
    ensures r.outcome != Ok ==> r.keys == keys
    ensures r.outcome == Ok ==>
      var i := FindKey(keys, key).value;
      && |r.keys| == |keys|
      && r.keys[i] == keys[i].(used := true, usedAt := Some(now), boundProof := Some(ToJsString(proof)))
      && forall j :: 0 <= j < |keys| && j != i ==> r.keys[j] == keys[j]
  {
    if !Truthy(key) then Reply(MissingKey, keys)
    else if !Truthy(proof) then Reply(MissingProof, keys)
    else match FindKey(keys, key)
      case None => Reply(NotFound, keys)
      case Some(i) =>
        var e := keys[i];
        if e.revoked then Reply(Revoked, keys)
        else if e.used then
          if BoundTo(e, proof) then Reply(Already, keys) else Reply(AlreadyUsed, keys)
        else Reply(Ok, keys[i := e.(used := true, usedAt := Some(now), boundProof := Some(ToJsString(proof)))])
  }

  /** POST /api/admin/revoke, past the admin gate: the found record becomes revoked. */
  function RevokeOn(keys: seq<UserKey>, key: Scalar): (r: Reply)
    ensures !Truthy(key) ==> r.outcome == MissingKey && r.keys == keys
    ensures Truthy(key) && FindKey(keys, key).None? ==> r.outcome == NotFound && r.keys == keys
    ensures Truthy(key) && FindKey(keys, key).Some? ==>
      var i := FindKey(keys, key).value;
      && r.outcome == Ok
      && |r.keys| == |keys|
      && r.keys[i] == keys[i].(revoked := true)
      && forall j :: 0 <= j < |keys| && j != i ==> r.keys[j] == keys[j]
  {
    if !Truthy(key) then Reply(MissingKey, keys)
    else match FindKey(keys, key)
      case None => Reply(NotFound, keys)
      case Some(i) => Reply(Ok, keys[i := keys[i].(revoked := true)])
  }

  /** The number of keys add-keys generates: the loop `for (i = 0; i < count; i++)` with
      `count = req.body.count || 1`, where a non-numeric count compares as NaN. */
  function Iterations(count: Scalar): (n: nat)
    ensures !Truthy(count) ==> n == 1
    ensures count.Num? && count.n != 0 ==> n == (if count.n < 0 then 0 else count.n)
  {
    match ToNumber(Or(count, Num(1)))
    case None => 0
    case Some(c) => if c < 0 then 0 else c
  }

  /** The record add-keys pushes: unused, unrevoked, unbound, created `now`. */
  function GeneratedKey(key: string, now: string): (r: UserKey)
    ensures r.key == key && !r.used && !r.revoked && r.boundProof.None?
    ensures r.createdAt == Some(now) && r.usedAt.None?
  {
    UserKey(key, false, false, Some(now), None, None)
  }

  /** A generated key that was not in the document before validates as usable. */
  lemma GeneratedKeyUsable(keys: seq<UserKey>, key: string, now: string, proof: Scalar)
    requires key != "" && forall j :: 0 <= j < |keys| ==> keys[j].key != key
    ensures Validate(keys + [GeneratedKey(key, now)], Str(key), proof) == Usable
  {
    var all := keys + [GeneratedKey(key, now)];
    assert FindKey(all, Str(key)).Some? by {
      assert Str(all[|keys|].key) == Str(key);
    }
  }

  /** The finding on the handlers: registering the number proof 123 stores "123", which the
      corrected `Validate` accepts and the comparison as written does not. */
  lemma NumberProofRegistered(now: string, later: string)
    ensures var r := RegisterOn([GeneratedKey("k", now)], Str("k"), Num(123), later);
      && r.outcome == Ok && r.keys[0].boundProof == Some("123")
      && Validate(r.keys, Str("k"), Num(123)) == Bound
      && !ProofMatchesAsWritten(Num(123), r.keys[0].boundProof.value)
      && ValidateAsWritten(r.keys, Str("k"), Num(123)) == BoundMismatch
  {
    Decimal123();
    ProofComparisonFinding(Num(123), "123");
  }

  /** The records add-keys pushes for the keys `g`, in order. */
  function GeneratedKeys(g: seq<string>, now: string): (r: seq<UserKey>)
    ensures |r| == |g| && forall j :: 0 <= j < |g| ==> r[j] == GeneratedKey(g[j], now)
  {
    seq(|g|, j requires 0 <= j < |g| => GeneratedKey(g[j], now))
  }

  lemma GeneratedKeysStep(g: seq<string>, i: nat, now: string)
    requires i < |g|
    ensures GeneratedKeys(g[..i + 1], now) == GeneratedKeys(g[..i], now) + [GeneratedKey(g[i], now)]
  {
  }

  // ---------------------------------------------------------------- the key document

  class UserKeyDoc {
    const adminToken: string
    var keys: seq<UserKey>

    constructor (adminToken: string, keys: seq<UserKey>)
      ensures this.adminToken == adminToken && this.keys == keys
    {
      this.adminToken := adminToken;
      this.keys := keys;
    }

    /** POST /api/admin/add-keys. `generated` stands for the successive results of
        `genKey()`; the reply echoes `count || 1`. */
    method AddKeys(header: Option<string>, count: Scalar, generated: seq<string>, now: string)
      returns (o: Outcome, added: Scalar)
      requires |generated| >= Iterations(count)
      modifies this
      ensures !AdminOk(adminToken, header) ==> o == Unauthorized && keys == old(keys)
      ensures AdminOk(adminToken, header) ==>
        && o == Ok
        && added == Or(count, Num(1))
        && keys == old(keys) + GeneratedKeys(generated[..Iterations(count)], now)
    {
      added := Or(count, Num(1));
      if !AdminOk(adminToken, header) {
        return Unauthorized, added;
      }
      var n := Iterations(count);
      var start := keys;
      var ks := start;
      var i := 0;
      while i < n
        invariant 0 <= i <= n
        invariant ks == start + GeneratedKeys(generated[..i], now)
      {
        GeneratedKeysStep(generated, i, now);
        ks := ks + [GeneratedKey(generated[i], now)];
        i := i + 1;
      }
      keys := ks;
      o := Ok;
    }

    method Revoke(header: Option<string>, key: Scalar) returns (o: Outcome)
      modifies this
      ensures !AdminOk(adminToken, header) ==> o == Unauthorized && keys == old(keys)
      ensures AdminOk(adminToken, header) ==>
        var r := RevokeOn(old(keys), key); o == r.outcome && keys == r.keys
    {
      if !AdminOk(adminToken, header) {
        return Unauthorized;
      }
      if !Truthy(key) {
        return MissingKey;
      }
      var found := FindKey(keys, key);
      if found.None? {
        return NotFound;
      }
      var i := found.value;
      keys := keys[i := keys[i].(revoked := true)];
      o := Ok;
    }

    method Register(key: Scalar, proof: Scalar, now: string) returns (o: Outcome)
      modifies this
      ensures var r := RegisterOn(old(keys), key, proof, now); o == r.outcome && keys == r.keys
    {
      if !Truthy(key) {
        return MissingKey;
      }
      if !Truthy(proof) {
        return MissingProof;
      }
      var found := FindKey(keys, key);
      if found.None? {
        return NotFound;
      }
      var i := found.value;
      if keys[i].revoked {
        return Revoked;
      }
      if keys[i].used {
        if BoundTo(keys[i], proof) {
          return Already;
        }
        return AlreadyUsed;
      }
      keys := keys[i := keys[i].(used := true, usedAt := Some(now), boundProof := Some(ToJsString(proof)))];
      o := Ok;
    }
  }

  // ---------------------------------------------------------------- the binding lifecycle

  /** A string form that a truthy scalar takes is never empty. */
  lemma TruthyStringNonEmpty(v: Scalar)
    requires Truthy(v)
    ensures ToJsString(v) != ""
  {
  }

  /** After a successful registration, validating with the same proof finds the key bound. */
  lemma RegisterThenValidate(keys: seq<UserKey>, key: Scalar, proof: Scalar, now: string)
    requires RegisterOn(keys, key, proof, now).outcome == Ok
    ensures Validate(RegisterOn(keys, key, proof, now).keys, key, proof) == Bound
  {
    var i := FindKey(keys, key).value;
    var after := RegisterOn(keys, key, proof, now).keys;
    assert FindKey(after, key) == Some(i);
    TruthyStringNonEmpty(proof);
  }

  /** Registering again with the same proof is idempotent: `Already`, nothing changes. */
  lemma RegisterIdempotent(keys: seq<UserKey>, key: Scalar, proof: Scalar, t1: string, t2: string)
    requires RegisterOn(keys, key, proof, t1).outcome == Ok
    ensures var after := RegisterOn(keys, key, proof, t1).keys;
      RegisterOn(after, key, proof, t2) == Reply(Already, after)
  {
    var i := FindKey(keys, key).value;
    var after := RegisterOn(keys, key, proof, t1).keys;
    assert FindKey(after, key) == Some(i);
    TruthyStringNonEmpty(proof);
  }

  /** A key bound to one proof is refused to every proof with another string form. */
  lemma RegisterOtherProofRefused(keys: seq<UserKey>, key: Scalar, proof: Scalar, other: Scalar, t1: string, t2: string)
    requires RegisterOn(keys, key, proof, t1).outcome == Ok
    requires Truthy(other) && ToJsString(other) != ToJsString(proof)
    ensures var after := RegisterOn(keys, key, proof, t1).keys;
      && RegisterOn(after, key, other, t2) == Reply(AlreadyUsed, after)
      && Validate(after, key, other) == BoundMismatch
  {
    var i := FindKey(keys, key).value;
    var after := RegisterOn(keys, key, proof, t1).keys;
    assert FindKey(after, key) == Some(i);
  }

  /** Once revoked, a key neither validates nor registers. */
  lemma RevokeBlocks(keys: seq<UserKey>, key: Scalar, proof: Scalar, now: string)
    requires RevokeOn(keys, key).outcome == Ok
    ensures Validate(RevokeOn(keys, key).keys, key, proof) == Revoked
    ensures Truthy(proof) ==> RegisterOn(RevokeOn(keys, key).keys, key, proof, now).outcome == Revoked
  {
    var i := FindKey(keys, key).value;
    assert FindKey(RevokeOn(keys, key).keys, key) == Some(i);
  }
}
