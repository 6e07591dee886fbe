/** The offline cleanup pass over the usernames document (cleanup.js): it drops players
    whose id starts with "pending:", drops "Anonymous Player" names, recomputes each
    record's top three names and prunes records left with neither names nor a real name.
    Reading and writing the file, the `updatedAt` clock and the console are outside the
    model; the pass maps the loaded `players` object to the saved one and its counters. */
module Cleanup {
  import opened Js
  import opened Seqs
  import opened Assoc
  import opened Usernames

  // ---------------------------------------------------------------- recomputeTopUsernames

  /** `typeof v === "number" && v > 0`; counts are numbers in the model. */
  function Positive(): ((string, int)) -> bool {
    (e: (string, int)) => e.1 > 0
  }

  function RecomputeTopUsernames(u: seq<(string, int)>): seq<NameCount> {
    TopUsernames(Select(u, Positive()))
  }

  /** Three names, or every positive one when there are fewer, all with a positive count,
      by non-increasing count, all drawn from `u`. */
  lemma RecomputeTopSpec(u: seq<(string, int)>)
    ensures var r := RecomputeTopUsernames(u);
      && |r| == (if |Select(u, Positive())| < 3 then |Select(u, Positive())| else 3)
      && (forall i :: 0 <= i < |r| ==> r[i].count > 0 && (r[i].name, r[i].count) in u)
      && (forall i, j :: 0 <= i < j < |r| ==> r[i].count >= r[j].count)
  {
    var pos := Select(u, Positive());
    var r := RecomputeTopUsernames(u);
    TopUsernamesSpec(pos);
    forall i | 0 <= i < |r| ensures r[i].count > 0 && (r[i].name, r[i].count) in u {
      assert (r[i].name, r[i].count) in pos;
    }
  }

  /** No entry with a positive count that was left out counts more than one that was kept. */
  lemma RecomputeTopMaximal(u: seq<(string, int)>, e: (string, int))
    requires e in multiset(u) - multiset(Top3(Select(u, Positive()))) && e.1 > 0
    ensures forall i :: 0 <= i < |RecomputeTopUsernames(u)| ==> e.1 <= RecomputeTopUsernames(u)[i].count
  {
    var pos := Select(u, Positive());
    SelectMultiset(u, Positive());
    assert e in multiset(pos) - multiset(Top3(pos));
    TopUsernamesMaximal(pos, e);
  }

  /** With every count positive the cleanup pass and `/api/mapping` rank names alike. */
  lemma RecomputeMatchesMapping(u: seq<(string, int)>)
    requires forall i :: 0 <= i < |u| ==> u[i].1 > 0
    ensures RecomputeTopUsernames(u) == TopUsernames(u)
  {
    SelectAll(u, Positive());
  }

  // ---------------------------------------------------------------- the three passes

  predicate IsPending(id: string) {
    StartsWith(id, "pending:")
  }

  /** `/^anonymous\s+player$/i`: without the `u` flag the `i` flag folds ASCII letters
      only, and `\s` is the white space that `trim` removes. */
  predicate IsAnon(name: string) {
    && |name| >= 16
    && LowerAsciiString(name[..9]) == "anonymous"
    && LowerAsciiString(name[|name| - 6..]) == "player"
    && AllSpace(name[9..|name| - 6])
  }

  /** Every ASCII casing of "anonymous", white space and "player" is an anonymous name. */
  lemma AnonymousSpellings(a: string, w: string, p: string)
    requires LowerAsciiString(a) == "anonymous" && LowerAsciiString(p) == "player"
    requires w != "" && AllSpace(w)
    ensures IsAnon(a + w + p)
  {
    var n := a + w + p;
    assert n[..9] == a && n[|n| - 6..] == p && n[9..|n| - 6] == w;
  }

  /** The white space is required, and nothing may follow "player"; the `pending:` prefix
      is matched with its case. */
  lemma AnonAndPendingExamples()
    ensures !IsAnon("AnonymousPlayer") && !IsAnon("Anonymous Player 2")
    ensures IsPending("pending:abc") && !IsPending("Pending:abc")
  {
    var n := "Anonymous Player 2";
    assert n[|n| - 6..][0] == 'a';
    assert "Pending:abc"[..8][0] == 'P';
  }

  function NotPending(): ((string, Player)) -> bool {
    (e: (string, Player)) => !IsPending(e.0)
  }

  function NotAnon(): ((string, int)) -> bool {
    (e: (string, int)) => !IsAnon(e.0)
  }

  /** `!!(realName && String(realName).trim())` */
  predicate HasReal(realName: Scalar) {
    Truthy(realName) && Trim(ToJsString(realName)) != ""
  }

  /** A record as step 2 leaves it: anonymous names gone, top three recomputed. Scalars
      are skipped. */
  function CleanPlayer(p: Player): (q: Player)
    ensures p.Primitive? ==> q == p
    ensures p.Record? ==> q.Record? && q.realName == p.realName
  {
    match p
    case Primitive(_) => p
    case Record(rn, u, _) =>
      var kept := Select(u, NotAnon());
      Record(rn, kept, Some(RecomputeTopUsernames(kept)))
  }

  /** A record that step 2 deletes: no names left after the anonymous ones go, and no
      real name. */
  predicate Pruned(p: Player) {
    p.Record? && Select(p.usernames, NotAnon()) == [] && !HasReal(p.realName)
  }

  function Survives(): ((string, Player)) -> bool {
    (e: (string, Player)) => !Pruned(e.1)
  }

  function CleanEntries(ps: seq<(string, Player)>): (r: seq<(string, Player)>)
    ensures |r| == |ps| && forall i :: 0 <= i < |ps| ==> r[i] == (ps[i].0, CleanPlayer(ps[i].1))
  {
    seq(|ps|, i requires 0 <= i < |ps| => (ps[i].0, CleanPlayer(ps[i].1)))
  }

  /** The players object after step 2, given the one after step 1. */
  function CleanRecords(ps: seq<(string, Player)>): seq<(string, Player)> {
    CleanEntries(Select(ps, Survives()))
  }

  /** The players object the pass saves. */
  function Cleaned(players: seq<(string, Player)>): seq<(string, Player)> {
    CleanRecords(Select(players, NotPending()))
  }

  /** The anonymous names step 2 deletes from one player. */
  function AnonNames(p: Player): nat {
    if p.Record? then |p.usernames| - |Select(p.usernames, NotAnon())| else 0
  }

  /** The anonymous names step 2 deletes from the first `n` players. */
  function AnonTotal(ps: seq<(string, Player)>, n: nat): nat
    requires n <= |ps|
  {
    if n == 0 then 0 else AnonTotal(ps, n - 1) + AnonNames(ps[n - 1].1)
  }

  lemma AnonTotalStep(ps: seq<(string, Player)>, i: nat)
    requires i < |ps|
    ensures AnonTotal(ps, i + 1) == AnonTotal(ps, i) + AnonNames(ps[i].1)
  {
  }

  lemma CleanRecordsSnoc(ps: seq<(string, Player)>, e: (string, Player))
    ensures CleanRecords(ps + [e]) == CleanRecords(ps) + (if Pruned(e.1) then [] else [(e.0, CleanPlayer(e.1))])
  {
    var a, b := Select(ps, Survives()), Select([e], Survives());
    SelectConcat(ps, [e], Survives());
    SelectOne(e, Survives());
    CleanEntriesConcat(a, b);
  }

  lemma CleanEntriesConcat(a: seq<(string, Player)>, b: seq<(string, Player)>)
    ensures CleanEntries(a + b) == CleanEntries(a) + CleanEntries(b)
  {
  }

  /** Step 2 over one more entry of `ps`. */
  lemma CleanRecordsStep(ps: seq<(string, Player)>, i: nat, q: Option<Player>)
    requires i < |ps| && q == if Pruned(ps[i].1) then None else Some(CleanPlayer(ps[i].1))
    ensures CleanRecords(ps[..i + 1]) == CleanRecords(ps[..i]) + (if q.None? then [] else [(ps[i].0, q.value)])
  {
    TakeOneMore(ps, i);
    CleanRecordsSnoc(ps[..i], ps[i]);
  }

  // ---------------------------------------------------------------- the pass itself

  /** Step 2's inner loop over one record's names. */
  method DropAnonymous(u: seq<(string, int)>) returns (kept: seq<(string, int)>, removed: nat)
    ensures kept == Select(u, NotAnon())
    ensures removed == |u| - |kept|
  {
    kept, removed := [], 0;
    var j := 0;
    while j < |u|
      invariant 0 <= j <= |u|
      invariant kept == Select(u[..j], NotAnon())
      invariant removed == j - |kept|
    {
      SelectConcat(u[..j], [u[j]], NotAnon());
      assert u[..j + 1] == u[..j] + [u[j]];
      if IsAnon(u[j].0) {
        removed := removed + 1;
      } else {
        kept := kept + [u[j]];
      }
      j := j + 1;
    }
    assert u[..j] == u;
  }

  /** Step 1: the players whose id does not start with "pending:". */
  method DropPending(players: seq<(string, Player)>) returns (rest: seq<(string, Player)>, removed: nat)
    ensures rest == Select(players, NotPending())
    ensures removed == |players| - |rest|
  {
    rest, removed := [], 0;
    var i := 0;
    while i < |players|
      invariant 0 <= i <= |players|
      invariant rest == Select(players[..i], NotPending())
      invariant removed == i - |rest|
    {
      SelectConcat(players[..i], [players[i]], NotPending());
      assert players[..i + 1] == players[..i] + [players[i]];
      if IsPending(players[i].0) {
        removed := removed + 1;
      } else {
        rest := rest + [players[i]];
      }
      i := i + 1;
    }
    assert players[..i] == players;
  }

  /** Step 2 on one entry: the cleaned record, or `None` when it is deleted, and how many
      anonymous names it lost. */
  method CleanOne(p: Player) returns (q: Option<Player>, removed: nat)
    ensures q == if Pruned(p) then None else Some(CleanPlayer(p))
    ensures removed == AnonNames(p)
  {
    if p.Primitive? {
      return Some(p), 0;
    }
    var kept;
    kept, removed := DropAnonymous(p.usernames);
    if kept == [] && !HasReal(p.realName) {
      q := None;
    } else {
      q := Some(Record(p.realName, kept, Some(RecomputeTopUsernames(kept))));
    }
  }

  /** Step 2 over the players step 1 kept: the saved players object, the anonymous names
      removed and the records pruned. */
  method CleanAll(rest: seq<(string, Player)>) returns (result: seq<(string, Player)>, removedAnonNames: nat, prunedEmptyPlayers: nat)
    ensures result == CleanRecords(rest)
    ensures removedAnonNames == AnonTotal(rest, |rest|)
    ensures prunedEmptyPlayers == |rest| - |result|
  {
    result, removedAnonNames, prunedEmptyPlayers := [], 0, 0;
    var i := 0;
    while i < |rest|
      invariant 0 <= i <= |rest|
      invariant result == CleanRecords(rest[..i])
      invariant removedAnonNames == AnonTotal(rest, i)
      invariant prunedEmptyPlayers == i - |result|
    {
      var id, p := rest[i].0, rest[i].1;
      var q, removed := CleanOne(p);
      CleanRecordsStep(rest, i, q);
      AnonTotalStep(rest, i);
      removedAnonNames := removedAnonNames + removed;
      if q.None? {
        prunedEmptyPlayers := prunedEmptyPlayers + 1;
      } else {
        result := result + [(id, q.value)];
      }
      i := i + 1;
    }
    assert rest[..i] == rest;
  }

  /** The pass: the saved players object and the three counters it prints. */
  method Clean(players: seq<(string, Player)>)
    returns (result: seq<(string, Player)>, removedPending: nat, removedAnonNames: nat, prunedEmptyPlayers: nat)
    ensures result == Cleaned(players)
    ensures removedPending == |players| - |Select(players, NotPending())|
    ensures removedAnonNames == AnonTotal(Select(players, NotPending()), |Select(players, NotPending())|)
    ensures prunedEmptyPlayers == |Select(players, NotPending())| - |result|
  {
    var rest;
    rest, removedPending := DropPending(players);
    result, removedAnonNames, prunedEmptyPlayers := CleanAll(rest);
  }

  // ---------------------------------------------------------------- what the pass achieves

  /** No saved id starts with "pending:", no saved name is anonymous, every saved record
      carries the top three of its own names, no saved record is empty, and every saved
      entry is the cleaned form of an input entry under the same id. */
  lemma CleanedSpec(players: seq<(string, Player)>)
    ensures var r := Cleaned(players);
      forall i :: 0 <= i < |r| ==>
        && !IsPending(r[i].0)
        && (exists j :: 0 <= j < |players| && r[i] == (players[j].0, CleanPlayer(players[j].1)) && !Pruned(players[j].1))
        && (r[i].1.Record? ==>
              && (forall k :: 0 <= k < |r[i].1.usernames| ==> !IsAnon(r[i].1.usernames[k].0))
              && r[i].1.topUsernames == Some(RecomputeTopUsernames(r[i].1.usernames))
              && (r[i].1.usernames != [] || HasReal(r[i].1.realName)))
  {
    var r := Cleaned(players);
    var pend := Select(players, NotPending());
    var surv := Select(pend, Survives());
    forall i | 0 <= i < |r|
      ensures !IsPending(r[i].0)
      ensures exists j :: 0 <= j < |players| && r[i] == (players[j].0, CleanPlayer(players[j].1)) && !Pruned(players[j].1)
    {
      assert surv[i] in pend;
      var j :| 0 <= j < |players| && players[j] == surv[i];
    }
  }

  /** A name that is not anonymous keeps its count: the input record's other names all
      survive in the saved record. */
  lemma CleanPlayerKeepsNames(p: Player)
    requires p.Record?
    ensures forall k :: 0 <= k < |p.usernames| && !IsAnon(p.usernames[k].0) ==>
      p.usernames[k] in CleanPlayer(p).usernames
    ensures forall k :: 0 <= k < |CleanPlayer(p).usernames| ==> CleanPlayer(p).usernames[k] in p.usernames
  {
  }

  /** A player that is not pending is saved exactly when it is a scalar, keeps a name
      after the anonymous ones go, or has a real name that is not all white space. */
  lemma CleanedKeepsIff(players: seq<(string, Player)>, j: nat)
    requires DistinctKeys(players) && j < |players|
    ensures players[j].0 in Keys(Cleaned(players)) <==> !IsPending(players[j].0) && !Pruned(players[j].1)
  {
    var r := Cleaned(players);
    var pend := Select(players, NotPending());
    var surv := Select(pend, Survives());
    if players[j].0 in Keys(r) {
      var i :| 0 <= i < |r| && r[i].0 == players[j].0;
      assert surv[i] in pend;
      var k :| 0 <= k < |players| && players[k] == surv[i];
      assert k == j;
    }
    if !IsPending(players[j].0) && !Pruned(players[j].1) {
      assert players[j] in pend;
      var i :| 0 <= i < |surv| && surv[i] == players[j];
      assert r[i].0 == players[j].0;
    }
  }

  /** Cleaning twice is cleaning once. */
  lemma CleanIdempotent(players: seq<(string, Player)>)
    ensures Cleaned(Cleaned(players)) == Cleaned(players)
  {
    var r := Cleaned(players);
    CleanedSpec(players);
    SelectAll(r, NotPending());
    forall i | 0 <= i < |r| ensures !Pruned(r[i].1) && CleanPlayer(r[i].1) == r[i].1 {
      var j :| 0 <= j < |players| && r[i] == (players[j].0, CleanPlayer(players[j].1)) && !Pruned(players[j].1);
      var p := players[j].1;
      if p.Record? {
        var kept := Select(p.usernames, NotAnon());
        SelectAll(kept, NotAnon());
      }
    }
    SelectAll(r, Survives());
    assert CleanEntries(r) == r;
  }
}
