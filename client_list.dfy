/** The leaderboard list helpers of the client script (core.js): `normalizeFilterSort`,
    which turns loosely shaped player entries into rows, keeps the live ones and ranks
    them, and the defensive filter-and-sort steps of `fetchLeaderboard` and `render`.
    Fetching, the DOM and timers are outside the model. */
module ClientList {
  import opened Js
  import opened Seqs

  /** A player entry as a game server reports it: each field may be absent (`Null`). */
  datatype RawEntry = RawEntry(
    name: Scalar, username: Scalar, playerName: Scalar,
    privyId: Scalar, id: Scalar, playerId: Scalar,
    size: Scalar, snakeSize: Scalar, length: Scalar,
    monetaryValue: Scalar, value: Scalar, money: Scalar, cash: Scalar)

  /** An entry of `normalizeFilterSort`'s output. */
  datatype Row = Row(name: string, privyId: Scalar, size: int, monetaryValue: int)

  // ---------------------------------------------------------------- field fallbacks

  /** `typeof v === 'string' && v` */
  predicate NonEmptyString(v: Scalar) {
    v.Str? && v.s != ""
  }

  /** The first non-empty string among `name`, `username`, `playerName`, else `'#' + (i + 1)`. */
  function DisplayName(p: RawEntry, i: nat): (r: string)
    ensures r != ""
    ensures NonEmptyString(p.name) ==> r == p.name.s
    ensures !NonEmptyString(p.name) && NonEmptyString(p.username) ==> r == p.username.s
    ensures !NonEmptyString(p.name) && !NonEmptyString(p.username) && NonEmptyString(p.playerName) ==> r == p.playerName.s
    ensures !NonEmptyString(p.name) && !NonEmptyString(p.username) && !NonEmptyString(p.playerName) ==>
      r == "#" + DecimalString(i + 1)
  {
    if NonEmptyString(p.name) then p.name.s
    else if NonEmptyString(p.username) then p.username.s
    else if NonEmptyString(p.playerName) then p.playerName.s
    else "#" + DecimalString(i + 1)
  }

  /** The first of `vs` that is `!= null`, else `d`. */
  function FirstPresent(vs: seq<Scalar>, d: Scalar): (r: Scalar)
    ensures r == d || r in vs
    ensures r != d && r != Null ==> exists k :: 0 <= k < |vs| && vs[k] == r && forall j :: 0 <= j < k ==> vs[j] == Null
    ensures (forall k :: 0 <= k < |vs| ==> vs[k] == Null) ==> r == d
    ensures forall k :: 0 <= k < |vs| && vs[k] != Null && (forall j :: 0 <= j < k ==> vs[j] == Null) ==> r == vs[k]
  {
    if vs == [] then d
    else if vs[0] != Null then vs[0]
    else FirstPresent(vs[1..], d)
  }

  /** `Number(v)`, with a non-finite result read as 0. */
  function Coerce(v: Scalar): int {
    match ToNumber(v)
    case None => 0
    case Some(n) => n
  }

  /** `privyId`, else `id`, else `playerId`, skipping null and undefined. */
  function IdOf(p: RawEntry): (v: Scalar)
    ensures p.privyId != Null ==> v == p.privyId
    ensures p.privyId == Null && p.id != Null ==> v == p.id
    ensures p.privyId == Null && p.id == Null ==> v == p.playerId
  {
    var ids := [p.privyId, p.id, p.playerId];
    assert ids[1] == p.id && ids[2] == p.playerId;
    FirstPresent(ids, Null)
  }

  /** `sRaw`: `size`, else `snakeSize`, else `length`, else 0. */
  function SizeOf(p: RawEntry): (v: Scalar)
    ensures p.size != Null ==> v == p.size
    ensures p.size == Null && p.snakeSize != Null ==> v == p.snakeSize
    ensures p.size == Null && p.snakeSize == Null && p.length != Null ==> v == p.length
    ensures p.size == Null && p.snakeSize == Null && p.length == Null ==> v == Num(0)
  {
    var sizes := [p.size, p.snakeSize, p.length];
    assert sizes[1] == p.snakeSize && sizes[2] == p.length;
    FirstPresent(sizes, Num(0))
  }

  /** `mvRaw`: `monetaryValue`, else `value`, else `money`, else `cash`, else 0. */
  function MoneyOf(p: RawEntry): (v: Scalar)
    ensures p.monetaryValue != Null ==> v == p.monetaryValue
    ensures p.monetaryValue == Null && p.value != Null ==> v == p.value
    ensures p.monetaryValue == Null && p.value == Null && p.money != Null ==> v == p.money
    ensures p.monetaryValue == Null && p.value == Null && p.money == Null && p.cash != Null ==> v == p.cash
    ensures p.monetaryValue == Null && p.value == Null && p.money == Null && p.cash == Null ==> v == Num(0)
  {
    var values := [p.monetaryValue, p.value, p.money, p.cash];
    assert values[1] == p.value && values[2] == p.money && values[3] == p.cash;
    FirstPresent(values, Num(0))
  }

  /** The row built for the entry at index `i`. */
  function RowOf(p: RawEntry, i: nat): (r: Row)
    ensures r.name != ""
    ensures p.privyId != Null ==> r.privyId == p.privyId
    ensures p.privyId == Null && p.id != Null ==> r.privyId == p.id
    ensures p.privyId == Null && p.id == Null ==> r.privyId == p.playerId
    ensures p.size != Null ==> r.size == Coerce(p.size)
    ensures p.size == Null && p.snakeSize != Null ==> r.size == Coerce(p.snakeSize)
    ensures p.size == Null && p.snakeSize == Null && p.length != Null ==> r.size == Coerce(p.length)
    ensures p.size == Null && p.snakeSize == Null && p.length == Null ==> r.size == 0
    ensures p.monetaryValue != Null ==> r.monetaryValue == Coerce(p.monetaryValue)
    ensures p.monetaryValue == Null && p.value != Null ==> r.monetaryValue == Coerce(p.value)
    ensures p.monetaryValue == Null && p.value == Null && p.money != Null ==> r.monetaryValue == Coerce(p.money)
    ensures p.monetaryValue == Null && p.value == Null && p.money == Null && p.cash != Null ==> r.monetaryValue == Coerce(p.cash)
    ensures p.monetaryValue == Null && p.value == Null && p.money == Null && p.cash == Null ==> r.monetaryValue == 0
  {
    Row(DisplayName(p, i), IdOf(p), Coerce(SizeOf(p)), Coerce(MoneyOf(p)))
  }

  function Rows(arr: seq<RawEntry>): (r: seq<Row>)
    ensures |r| == |arr| && forall i :: 0 <= i < |arr| ==> r[i] == RowOf(arr[i], i)
  {
    seq(|arr|, i requires 0 <= i < |arr| => RowOf(arr[i], i))
  }

  /** `mvNum > 0 && sizeNum > 2` */
  predicate Live(r: Row) {
    r.monetaryValue > 0 && r.size > 2
  }

  function IsLive(): Row -> bool {
    (r: Row) => Live(r)
  }

  // ---------------------------------------------------------------- the ranking

  /** Code-point order on strings, standing in for `localeCompare`. */
  predicate LexLe(a: string, b: string)
    decreases |a|
  {
    a == [] || (b != [] && (a[0] < b[0] || (a[0] == b[0] && LexLe(a[1..], b[1..]))))
  }

  lemma {:induction false} LexTotal(a: string, b: string)
    ensures LexLe(a, b) || LexLe(b, a)
    decreases |a|
  {
    if a != [] && b != [] && a[0] == b[0] {
      LexTotal(a[1..], b[1..]);
    }
  }

  lemma {:induction false} LexTransitive(a: string, b: string, c: string)
    requires LexLe(a, b) && LexLe(b, c)
    ensures LexLe(a, c)
    decreases |a|
  {
    if a != [] && a[0] == b[0] && b[0] == c[0] {
      LexTransitive(a[1..], b[1..], c[1..]);
    }
  }

  /** The comparator of `out.sort`: larger monetary value first, then larger size, then
      names in order. */
  function ByRank(): (Row, Row) -> bool {
    (a: Row, b: Row) =>
      a.monetaryValue > b.monetaryValue
      || (a.monetaryValue == b.monetaryValue
          && (a.size > b.size || (a.size == b.size && LexLe(a.name, b.name))))
  }

  lemma ByRankTotal()
    ensures TotalPreorder(ByRank())
  {
    forall a: Row, b: Row ensures ByRank()(a, b) || ByRank()(b, a) {
      LexTotal(a.name, b.name);
    }
    forall a: Row, b: Row, c: Row | ByRank()(a, b) && ByRank()(b, c) ensures ByRank()(a, c) {
      if a.monetaryValue == b.monetaryValue == c.monetaryValue && a.size == b.size == c.size {
        LexTransitive(a.name, b.name, c.name);
      }
    }
  }

  /** The list `normalizeFilterSort` returns. */
  function Normalized(arr: seq<RawEntry>): seq<Row> {
    SortBy(Select(Rows(arr), IsLive()), ByRank())
  }

  /** The loop over `arr` pushes the live rows; the in-place sort is the ranking above. */
  method NormalizeFilterSort(arr: seq<RawEntry>) returns (out: seq<Row>)
    ensures out == Normalized(arr)
  {
    out := [];
    ghost var rows := Rows(arr);
    var i := 0;
    while i < |arr|
      invariant 0 <= i <= |arr|
      invariant out == Select(rows[..i], IsLive())
    {
      var p := arr[i];
      var name := DisplayName(p, i);
      var privyId := FirstPresent([p.privyId, p.id, p.playerId], Null);
      var sRaw := FirstPresent([p.size, p.snakeSize, p.length], Num(0));
      var mvRaw := FirstPresent([p.monetaryValue, p.value, p.money, p.cash], Num(0));
      var sizeNum := Coerce(sRaw);
      var mvNum := Coerce(mvRaw);
      assert rows[i] == Row(name, privyId, sizeNum, mvNum);
      TakeOneMore(rows, i);
      SelectConcat(rows[..i], [rows[i]], IsLive());
      SelectOne(rows[i], IsLive());
      if mvNum > 0 && sizeNum > 2 {
        out := out + [Row(name, privyId, sizeNum, mvNum)];
      }
      i := i + 1;
    }
    assert rows[..i] == rows;
    out := SortBy(out, ByRank());
  }

  /** The output has no more entries than the input and is ranked. */
  lemma NormalizedRanked(arr: seq<RawEntry>)
    ensures |Normalized(arr)| <= |arr|
    ensures SortedBy(Normalized(arr), ByRank())
  {
    ByRankTotal();
    SortBySorted(Select(Rows(arr), IsLive()), ByRank());
  }

  /** Every output row is live and built from one input entry. */
  lemma NormalizedRowsLive(arr: seq<RawEntry>)
    ensures var out := Normalized(arr);
      forall k :: 0 <= k < |out| ==> Live(out[k]) && exists i :: 0 <= i < |arr| && out[k] == RowOf(arr[i], i)
  {
    var rows := Rows(arr);
    var live := Select(rows, IsLive());
    var out := Normalized(arr);
    forall k | 0 <= k < |out|
      ensures Live(out[k]) && exists i :: 0 <= i < |arr| && out[k] == RowOf(arr[i], i)
    {
      NormalizedFromLive(arr, out[k]);
      LiveRowFrom(arr, out[k]);
    }
  }

  /** The sort only reorders the live rows. */
  lemma NormalizedFromLive(arr: seq<RawEntry>, x: Row)
    requires x in Normalized(arr)
    ensures x in Select(Rows(arr), IsLive())
  {
    assert x in multiset(Normalized(arr));
  }

  /** A row that passes the filter is live and built from one input entry. */
  lemma LiveRowFrom(arr: seq<RawEntry>, x: Row)
    requires x in Select(Rows(arr), IsLive())
    ensures Live(x) && exists i :: 0 <= i < |arr| && x == RowOf(arr[i], i)
  {
    var rows := Rows(arr);
    var live := Select(rows, IsLive());
    var j :| 0 <= j < |live| && live[j] == x;
    var i :| 0 <= i < |rows| && rows[i] == x;
    assert x == RowOf(arr[i], i);
  }

  /** The row of every live input entry is in the output. */
  lemma NormalizedKeepsLive(arr: seq<RawEntry>, i: nat)
    requires i < |arr| && Live(RowOf(arr[i], i))
    ensures RowOf(arr[i], i) in Normalized(arr)
  {
    var rows := Rows(arr);
    var live := Select(rows, IsLive());
    assert rows[i] in live;
    assert rows[i] in multiset(Normalized(arr));
  }

  /** Rows ranked level with each other keep their input order. */
  lemma NormalizedStable(arr: seq<RawEntry>, c: Row)
    ensures Select(Normalized(arr), Level(ByRank(), c)) == Select(Select(Rows(arr), IsLive()), Level(ByRank(), c))
  {
    ByRankTotal();
    SortByStable(Select(Rows(arr), IsLive()), ByRank(), c);
  }

  // ---------------------------------------------------------------- fetchLeaderboard and render

  /** `x > k` for a scalar `x`: NaN compares false. */
  predicate Greater(v: Scalar, k: int) {
    match ToNumber(v)
    case None => false
    case Some(n) => n > k
  }

  /** `p.monetaryValue || 0` as a number; only compared on entries that passed the filter. */
  function Money(p: RawEntry): int {
    Coerce(Or(p.monetaryValue, Num(0)))
  }

  /** `(p.monetaryValue || 0) > 0 && (p.size || 0) > 2` */
  predicate Worth(p: RawEntry) {
    Greater(Or(p.monetaryValue, Num(0)), 0) && Greater(Or(p.size, Num(0)), 2)
  }

  /** `render`'s filter; `None` is an entry that is not an object. */
  function RenderKeeps(): Option<RawEntry> -> bool {
    (p: Option<RawEntry>) => p.Some? && Worth(p.value)
  }

  /** `fetchLeaderboard`'s filter, which also wants a name. */
  function LeaderboardKeeps(): Option<RawEntry> -> bool {
    (p: Option<RawEntry>) => p.Some? && Truthy(p.value.name) && Worth(p.value)
  }

  /** `(a, b) => (b.monetaryValue || 0) - (a.monetaryValue || 0)` */
  function ByMoney(): (RawEntry, RawEntry) -> bool {
    (a: RawEntry, b: RawEntry) => Money(a) >= Money(b)
  }

  function Unwrap(s: seq<Option<RawEntry>>): (r: seq<RawEntry>)
    requires forall i :: 0 <= i < |s| ==> s[i].Some?
    ensures |r| == |s| && forall i :: 0 <= i < |s| ==> s[i] == Some(r[i])
  {
    seq(|s|, i requires 0 <= i < |s| => s[i].value)
  }

  function Wrap(s: seq<RawEntry>): (r: seq<Option<RawEntry>>)
    ensures |r| == |s| && forall i :: 0 <= i < |s| ==> r[i] == Some(s[i])
  {
    seq(|s|, i requires 0 <= i < |s| => Some(s[i]))
  }

  /** The list `fetchLeaderboard` returns for the server's `entries`. */
  function LeaderboardList(entries: seq<Option<RawEntry>>): (r: seq<RawEntry>)
    ensures |r| <= |entries|
  {
    SortBy(Unwrap(Select(entries, LeaderboardKeeps())), ByMoney())
  }

  /** The list `render` draws for `players`. */
  function RenderList(players: seq<Option<RawEntry>>): (r: seq<RawEntry>)
    ensures |r| <= |players|
  {
    SortBy(Unwrap(Select(players, RenderKeeps())), ByMoney())
  }

  /** The leaderboard is ordered richest first. */
  lemma LeaderboardSorted(entries: seq<Option<RawEntry>>)
    ensures SortedBy(LeaderboardList(entries), ByMoney())
  {
    assert TotalPreorder(ByMoney());
    SortBySorted(Unwrap(Select(entries, LeaderboardKeeps())), ByMoney());
  }

  /** Every leaderboard entry is a named, worthwhile object entry of the server's list. */
  lemma LeaderboardEntries(entries: seq<Option<RawEntry>>)
    ensures var r := LeaderboardList(entries);
      forall k :: 0 <= k < |r| ==> Some(r[k]) in entries && Truthy(r[k].name) && Worth(r[k])
  {
    var kept := Select(entries, LeaderboardKeeps());
    var u := Unwrap(kept);
    var r := LeaderboardList(entries);
    forall k | 0 <= k < |r| ensures Some(r[k]) in entries && Truthy(r[k].name) && Worth(r[k]) {
      assert r[k] in multiset(u);
      var j :| 0 <= j < |u| && u[j] == r[k];
      assert kept[j] == Some(r[k]);
    }
  }

  /** Every named, worthwhile object entry of the server's list is on the leaderboard. */
  lemma LeaderboardComplete(entries: seq<Option<RawEntry>>)
    ensures forall i :: 0 <= i < |entries| && LeaderboardKeeps()(entries[i]) ==>
      entries[i].value in LeaderboardList(entries)
  {
    var kept := Select(entries, LeaderboardKeeps());
    var u := Unwrap(kept);
    var r := LeaderboardList(entries);
    forall i | 0 <= i < |entries| && LeaderboardKeeps()(entries[i]) ensures entries[i].value in r {
      var j :| 0 <= j < |kept| && kept[j] == entries[i];
      assert u[j] in multiset(r);
    }
  }

  /** `render` draws its list richest first, whatever it is given. */
  lemma RenderSorted(players: seq<Option<RawEntry>>)
    ensures SortedBy(RenderList(players), ByMoney())
  {
    assert TotalPreorder(ByMoney());
    SortBySorted(Unwrap(Select(players, RenderKeeps())), ByMoney());
  }

  /** Every entry `render` draws is a worthwhile object entry of its input. */
  lemma RenderEntries(players: seq<Option<RawEntry>>)
    ensures var r := RenderList(players);
      forall k :: 0 <= k < |r| ==> Some(r[k]) in players && Worth(r[k])
  {
    var kept := Select(players, RenderKeeps());
    var u := Unwrap(kept);
    var r := RenderList(players);
    forall k | 0 <= k < |r| ensures Some(r[k]) in players && Worth(r[k]) {
      assert r[k] in multiset(u);
      var j :| 0 <= j < |u| && u[j] == r[k];
      assert kept[j] == Some(r[k]);
    }
  }

  /** Every worthwhile object entry of its input is drawn by `render`. */
  lemma RenderComplete(players: seq<Option<RawEntry>>)
    ensures forall i :: 0 <= i < |players| && RenderKeeps()(players[i]) ==>
      players[i].value in RenderList(players)
  {
    var kept := Select(players, RenderKeeps());
    var u := Unwrap(kept);
    var r := RenderList(players);
    forall i | 0 <= i < |players| && RenderKeeps()(players[i]) ensures players[i].value in r {
      var j :| 0 <= j < |kept| && kept[j] == players[i];
      assert u[j] in multiset(r);
    }
  }

  /** `render` draws the leaderboard it is given as it is: its filter keeps every entry
      and its sort finds them already in order. */
  lemma RenderKeepsLeaderboard(entries: seq<Option<RawEntry>>)
    ensures RenderList(Wrap(LeaderboardList(entries))) == LeaderboardList(entries)
  {
    var l := LeaderboardList(entries);
    LeaderboardSorted(entries);
    LeaderboardEntries(entries);
    RenderKeepsSorted(l);
  }

  /** A worthwhile list, richest first, passes `render` unchanged. */
  lemma RenderKeepsSorted(l: seq<RawEntry>)
    requires SortedBy(l, ByMoney())
    requires forall k :: 0 <= k < |l| ==> Worth(l[k])
    ensures RenderList(Wrap(l)) == l
  {
    SelectAll(Wrap(l), RenderKeeps());
    assert Unwrap(Wrap(l)) == l;
    SortBySortedIdentity(l, ByMoney());
  }
}
