# License, username and leaderboard logic, modelled in Dafny

This project models the decision logic of a small game-tracking system:

- **`server.js`**: the license server. It keeps a file of license keys. A key is redeemed once and can then be checked. An administrator can add, revoke and unrevoke keys.
- **`userserver.js`**: the user server. It has two halves:
  - A second key document, whose keys are *bound* on first registration to a caller-supplied proof. It handles validate, register, add-keys and revoke.
  - A username tracker. Per player id, it keeps the real name and how often each in-game name was seen. It handles trackJoin and updateRealName, and the `/api/mapping` projection lists each player's top three names.
- **`cleanup.js`**: an offline pass over the usernames document. It deletes `pending:` players and "Anonymous Player" names, recomputes the top three names and prunes empty records.
- **`core.js`**: the client script's pure and list-processing helpers:
  - `normalizeFilterSort`
  - the filter-and-sort steps of `fetchLeaderboard` and `render`
  - the two `serverId` parsers
  - the alert-uid chooser
  - the bounded "seen alerts" store
  - the version label

JavaScript semantics that matter for these are written out in module `Js` (`js_values.dfy`):

- truthiness and `||`
- `String(x)` and `Number(x)` on JSON scalars
- `trim` and its white-space set, which is also the `\s` of the regular expressions
- ASCII case folding, which is what the `i` flag does without `u` on these patterns

Module `Seqs` holds `Array.prototype.filter` (`Select`) and the stable `Array.prototype.sort` with a consistent comparator (`SortBy`, an insertion sort). The sort is proved to be a permutation, sorted and stable. A JavaScript object is an insertion-ordered sequence of key/value pairs with distinct keys (module `Assoc`).

Stores that the source updates in place are classes whose methods mutate a `seq` field:

- `LicenseServer.KeyStore`
- `UserKeys.UserKeyDoc`
- `Usernames.UsernameDoc`
- `ClientMisc.SeenStore`

Each method is proved equal to a pure transition function (`RedeemOn`, `RegisterOn`, `TrackJoinOn`, `SeenAfter`, …), and the lifecycle properties are lemmas about those functions. Loops in the source are methods with loops and invariants:

- add-keys in both servers
- `/api/mapping`
- the cleanup passes
- `normalizeFilterSort`

The file and network reads and writes are not modelled. The stored document is the object's field, or the method's input and output. The clock (`new Date().toISOString()`, `Date.now()`), `genKey()` and `Math.random()` are parameters.

## Model

| member | source | states |
|---|---|---|
| LicenseServer.NormalizeKey | server.js:41-43 | a falsy value gives the empty string; a truthy one gives `String(k).trim()`, which is empty iff that string is all white space and otherwise has no white space at either end |
| LicenseServer.RequireAdmin | server.js:103-108 | admin access iff a token is configured and the `x-admin-token` header equals it |
| LicenseServer.FindKey | server.js:66 | `find` gives the first record with the key, and none when no record has it |
| LicenseServer.RedeemOn | server.js:61-75 | missing_key, then invalid_key, then revoked, then already_used, in that order; only on success is the one record marked used with `usedAt`, every other record unchanged; keeps the store well-formed |
| LicenseServer.CheckOn | server.js:84-95 | ok iff the key exists, is not revoked and is used; otherwise the first failing test's error |
| LicenseServer.RequestedKeys | server.js:113 | every requested key is non-empty and is the normalised form of some input value, every non-empty normalised input key is requested, and a non-array body requests nothing |
| LicenseServer.NormalizeAll | server.js:113 | the `map(normalizeKey)` step: one normalised key per input value, position by position |
| LicenseServer.AddAll | server.js:117-122 | the existing records stay as a prefix of the result |
| LicenseServer.AddAllAppends | server.js:117-122 | add-keys appends a fresh unused, unrevoked record only for requested keys not yet present, never one key twice, and afterwards every requested key is present |
| LicenseServer.AddAllWellFormed | server.js:117-122 | add-keys keeps the no-duplicate-key store invariant |
| LicenseServer.KeysFrom | server.js:117-122 | the set of keys of a store's tail, exactly |
| LicenseServer.KeysFromCount | server.js:117-122 | records with pairwise different keys number as many as their keys |
| LicenseServer.AddAllCount | server.js:115-124 | `added` equals the number of distinct requested keys not yet present, however often a request repeats one |
| LicenseServer.RevokeAsWritten | server.js:131-144 | the handler as written: missing_key, not_found, and server_error on any existing key, with the store unchanged |
| LicenseServer.RevokeOn | server.js:131-140 | revoke as intended: the found record becomes revoked with `revokedAt`, no other record changes, the invariant is kept |
| LicenseServer.UnrevokeOn | server.js:148-158 | the found record is no longer revoked and has no `revokedAt`; missing_key and not_found change nothing |
| LicenseServer.KeyStore.Redeem | server.js:61-75 | the new store and the outcome are those of `RedeemOn`; a success reports the `usedAt` written |
| LicenseServer.KeyStore.Check | server.js:84-95 | the outcome is `CheckOn` of the store, and the store is not modified |
| LicenseServer.KeyStore.AddKeys | server.js:111-124 | unauthorized and no_keys change nothing; otherwise the store becomes `AddAll` of the requested keys, `added` is the growth and `total` the new length |
| LicenseServer.KeyStore.AppendMissing | server.js:116-122 | the loop leaves the store equal to `AddAll` and counts what it appended |
| LicenseServer.KeyStore.Revoke | server.js:131-144 | the outcome is that of the handler as written, and the store is not modified |
| LicenseServer.KeyStore.RevokeCorrected | server.js:131-140 | past the admin gate, the new store and the outcome are those of `RevokeOn` |
| LicenseServer.KeyStore.Unrevoke | server.js:148-158 | past the admin gate, the new store and the outcome are those of `UnrevokeOn` |
| LicenseServer.RedeemIsSingleUse | server.js:70-72 | a key redeemed once answers already_used to a second redeem |
| LicenseServer.RedeemThenCheck | server.js:72-95 | a freshly redeemed key passes the check, and it did not pass before |
| LicenseServer.RevokeBlocksRedeemAndCheck | server.js:68-91 | after an intended revoke, both redeem and check answer revoked |
| LicenseServer.UnrevokeUndoesRevoke | server.js:138-155 | unrevoking a just-revoked record restores the store exactly |
| LicenseServer.RevokeAsWrittenHasNoEffect | server.js:138 | as written, revoking an existing key fails and a later redeem behaves as if no revoke had happened |
| LicenseServer.RevokeAsWrittenExample | server.js:138 | the unused key "K1": the revoke as written answers server_error and "K1" still redeems, while after the intended revoke it answers revoked |
| LicenseServer.AddedKeyRedeems | server.js:117-122 | a key just added redeems |
| UserKeys.AdminOkAsWritten | userserver.js:92 | the gate as written passes iff the header equals the configured token, including the empty token |
| UserKeys.AdminOk | userserver.js:92 | the intended gate also needs a configured token, and implies the gate as written |
| UserKeys.AdminGateFinding | userserver.js:14 | with a token configured the two gates agree; with none, an empty header passes the gate as written only |
| UserKeys.ProofComparisonFinding | userserver.js:145 | for string proofs `===` and the stored `String(proof)` comparison agree; the number 123 matches its stored form only under the intended comparison |
| UserKeys.NumberProofRegistered | userserver.js:145-175 | registering the number 123 stores "123"; validate with 123 then answers bound under the intended comparison, and bound_mismatch under the handler as written |
| UserKeys.ValidateAsWritten | userserver.js:133-149 | validate with `proof === found.boundProof`: it answers like the intended handler for every string proof, and otherwise differs only by answering bound_mismatch where that one answers bound |
| UserKeys.ProofMatchesAsWritten | userserver.js:145 | `===` as written: only a string proof can match, and it matches exactly the stored string |
| UserKeys.ProofMatches | userserver.js:145 | the intended comparison: a string proof matches the stored string equal to it, a number the stored decimal form of that number |
| UserKeys.FindKey | userserver.js:138 | the first record whose key is strictly equal to the requested value; a non-string never matches |
| UserKeys.Validate | userserver.js:133-149 | missing_key, not_found, revoked, usable for an unused key; a used key is bound iff it carries a non-empty proof matching the given truthy proof, and bound_mismatch otherwise |
| UserKeys.RegisterOn | userserver.js:157-177 | missing_key, missing_proof, not_found, revoked; a used key answers already when bound to this proof and already_used otherwise, and neither saves anything; an unused key is marked used with `usedAt` and bound to `String(proof)`, every other record unchanged |
| UserKeys.RevokeOn | userserver.js:117-123 | missing_key and not_found change nothing; otherwise only the found record becomes revoked |
| UserKeys.Iterations | userserver.js:94-97 | the loop count: 1 for a falsy count, the count itself for a non-zero number, none for a negative one |
| UserKeys.GeneratedKey | userserver.js:98-103 | a pushed record carries the new key, is unused, unrevoked and unbound, and was created now |
| UserKeys.GeneratedKeyUsable | userserver.js:98-145 | a key just added answers usable to validate, whatever the proof |
| UserKeys.BoundTo | userserver.js:145 | a used key is bound to a proof iff the proof is truthy and its non-empty string form is the stored proof |
| UserKeys.UserKeyDoc.AddKeys | userserver.js:91-106 | past the gate, the document becomes the old records followed by exactly `Iterations(count)` fresh unused, unrevoked records, one per supplied key in order, and the reply echoes `count \|\| 1` |
| UserKeys.UserKeyDoc.Revoke | userserver.js:114-125 | past the admin gate, the new document and the outcome are those of `RevokeOn` |
| UserKeys.UserKeyDoc.Register | userserver.js:157-177 | the new document and the outcome are those of `RegisterOn` |
| UserKeys.TruthyStringNonEmpty | userserver.js:175 | a truthy proof's stored string form is non-empty |
| UserKeys.RegisterThenValidate | userserver.js:145-175 | after a successful register, validate with the same proof answers bound |
| UserKeys.RegisterIdempotent | userserver.js:168-170 | registering again with the same proof answers already and leaves the document unchanged |
| UserKeys.RegisterOtherProofRefused | userserver.js:169-171 | a bound key refuses every proof with another string form, both to register and to validate |
| UserKeys.RevokeBlocks | userserver.js:141-167 | after revoke, validate answers revoked and register with any proof answers revoked |
| Usernames.CountOf | userserver.js:197 | `u[name] \|\| 0`: zero for a name not present; for a present name, the count stored under it, which is the value of every entry with that name when names are distinct |
| Usernames.Current | userserver.js:194-196 | the stored record, or a fresh `{realName: null, usernames: {}}` when the entry is missing or falsy |
| Usernames.TrackJoinOn | userserver.js:187-199 | missing_fields when the id or the name is falsy; write_failed exactly when a truthy scalar sits in the player's place; nothing changes unless ok |
| Usernames.UpdateRealNameOn | userserver.js:210-220 | missing_fields when the id or the real name is falsy; write_failed exactly when a truthy scalar sits in the player's place; nothing changes unless ok |
| Usernames.TrackJoinCounts | userserver.js:193-197 | trackJoin adds exactly one to the name's count, leaves the player's other names, real name and top names and every other player unchanged, and keeps the document well-formed |
| Usernames.UpdateRealNameSets | userserver.js:215-218 | the player's record carries the new real name with its names unchanged, and no other player changes |
| Usernames.TopUsernamesSpec | userserver.js:233-236 | at most three entries, and exactly three when there are that many names, by non-increasing count, each a (name, count) entry of the names map |
| Usernames.TopUsernamesMaximal | userserver.js:233-236 | no name left out of the top three counts more than one that was kept |
| Usernames.TopUsernames | userserver.js:233-236 | `slice(0, 3)`: exactly three entries when there are three names or more, else one per name |
| Usernames.MapOf | userserver.js:233-240 | a record maps to its own names and their top three, with its real name when that is truthy and null when it is falsy; reading a `null` entry fails; another scalar maps to no names |
| Usernames.UsernameDoc.TrackJoin | userserver.js:187-199 | the new players object and the outcome are those of `TrackJoinOn` |
| Usernames.UsernameDoc.UpdateRealName | userserver.js:207-220 | unauthorized without the admin token; otherwise the new players object and the outcome are those of `UpdateRealNameOn` |
| Usernames.UsernameDoc.Mapping | userserver.js:228-243 | read_failed iff some player entry is `null`; otherwise one entry per player, in order, each that player's `MapOf` |
| Cleanup.RecomputeTopSpec | cleanup.js:40-46 | exactly three names when there are three positive ones or more, else every positive one; each has a positive count and comes from the names map, by non-increasing count |
| Cleanup.RecomputeTopMaximal | cleanup.js:40-46 | no positive-count name left out counts more than one that was kept |
| Cleanup.RecomputeMatchesMapping | cleanup.js:40-46 | when every count is positive the cleanup pass and `/api/mapping` rank names alike |
| Cleanup.CleanPlayer | cleanup.js:73-86 | a scalar entry is left as it is; a record keeps its real name |
| Cleanup.CleanRecordsSnoc | cleanup.js:72-95 | cleaning one more entry appends its cleaned form, unless it is pruned |
| Cleanup.DropAnonymous | cleanup.js:77-82 | the names left are those that do not match the anonymous pattern, in order, and the count is the number deleted |
| Cleanup.DropPending | cleanup.js:64-69 | the players left are those whose id does not start with `pending:`, in order, and the count is the number deleted |
| Cleanup.CleanOne | cleanup.js:72-94 | one entry's cleaned form, or none when it is pruned, and the number of anonymous names it lost |
| Cleanup.Clean | cleanup.js:59-98 | the saved players object is `Cleaned(players)`, and the three counters are the ids, names and records that the passes delete |
| Cleanup.CleanedSpec | cleanup.js:64-94 | no saved id starts with `pending:`; no saved name is anonymous; every saved record carries the top three of its own names and has a name or a real name; every saved entry is the cleaned form of a surviving input entry under the same id |
| Cleanup.CleanPlayerKeepsNames | cleanup.js:77-85 | every name that is not anonymous keeps its entry and count, and no other name appears |
| Cleanup.CleanedKeepsIff | cleanup.js:64-94 | an input player is saved iff its id is not pending and it is not an empty record without a real name |
| Cleanup.CleanIdempotent | cleanup.js:59-98 | cleaning an already cleaned document changes nothing |
| Cleanup.AnonymousSpellings | cleanup.js:57 | every ASCII casing of "anonymous", then white space, then "player" matches the anonymous pattern |
| Cleanup.AnonAndPendingExamples | cleanup.js:57-65 | the anonymous pattern needs white space and an exact end, so "AnonymousPlayer" and "Anonymous Player 2" do not match; the `pending:` prefix is case-sensitive |
| Cleanup.CleanAll | cleanup.js:71-95 | the second pass saves `CleanRecords` of what the first left, counting the anonymous names deleted and the records pruned |
| ClientList.DisplayName | core.js:36-40 | the name is the first non-empty string among `name`, `username` and `playerName`, else `#` and the 1-based index |
| ClientList.FirstPresent | core.js:42-56 | the `!= null` fallback chain: the first value that is not null or undefined when there is one, and the default when every value is null or undefined |
| ClientList.RowOf | core.js:33-62 | the row's name is never empty; `privyId` is the first of `privyId`, `id`, `playerId` that is not null; size is the coerced first of `size`, `snakeSize`, `length` that is not null, and monetary value the coerced first of `monetaryValue`, `value`, `money`, `cash`; each is 0 when all its fields are null |
| ClientList.IdOf | core.js:42-45 | `privyId`, else `id`, else `playerId`, skipping null and undefined |
| ClientList.SizeOf | core.js:47-50 | `size`, else `snakeSize`, else `length`, skipping null and undefined, else 0 |
| ClientList.MoneyOf | core.js:52-56 | `monetaryValue`, else `value`, else `money`, else `cash`, skipping null and undefined, else 0 |
| ClientList.LexTotal | core.js:79-81 | the name order is total |
| ClientList.LexTransitive | core.js:79-81 | the name order is transitive |
| ClientList.ByRankTotal | core.js:74-82 | the three-key comparator is a total preorder, so the stable sort is well defined |
| ClientList.NormalizeFilterSort | core.js:31-85 | the output is `Normalized(arr)`, the live rows in input order, stably sorted by the comparator |
| ClientList.NormalizedRanked | core.js:64-82 | no more rows than input entries, sorted by monetary value descending, then size descending, then name |
| ClientList.NormalizedRowsLive | core.js:58-71 | every output row has a monetary value above 0 and a size above 2, and is the row of some input entry |
| ClientList.NormalizedKeepsLive | core.js:64-71 | every live input entry's row is in the output |
| ClientList.NormalizedStable | core.js:74-82 | rows that rank level keep their input order |
| ClientList.LeaderboardList | core.js:398-405 | fetchLeaderboard's list has no more entries than the server sent |
| ClientList.RenderList | core.js:598-600 | render's filtered list has no more entries than it was given |
| ClientList.RenderSorted | core.js:600 | whatever it is given, render draws its list richest first |
| ClientList.RenderEntries | core.js:599 | every entry render draws is an object entry of its input with positive money and size above 2 |
| ClientList.RenderComplete | core.js:599 | every such entry of its input is drawn |
| ClientList.LeaderboardSorted | core.js:405 | the leaderboard is ordered richest first |
| ClientList.LeaderboardEntries | core.js:398-402 | every leaderboard entry is a named object entry of the server's list with positive money and size above 2 |
| ClientList.LeaderboardComplete | core.js:398-402 | every such entry of the server's list is on the leaderboard |
| ClientList.RenderKeepsSorted | core.js:598-600 | a worthwhile list, richest first, passes render's filter and sort unchanged |
| ClientList.RenderKeepsLeaderboard | core.js:651-652 | render draws exactly the list that fetchLeaderboard returns, in its order |
| ClientMisc.RegionOf | core.js:26 | the region alternative matched case-insensitively, lower-cased, or none |
| ClientMisc.AmountOf | core.js:26 | the amount alternative found after the dash, or none only when no amount follows the dash |
| ClientMisc.ResolveServerKey | core.js:24-30 | `serverKey` is always region, dash, amount |
| ClientMisc.ResolveServerKeySpec | core.js:24-30 | the region and amount are a valid pair; they are the ones `serverId` begins with, and `us`/`1` when it begins with none |
| ClientMisc.AmountOfFollows | core.js:26 | the amount that follows the dash is the one found, since the three amounts begin with different digits |
| ClientMisc.ParseServerIdSpec | core.js:375-380 | the pair `serverId` begins with when a word boundary follows it, and `us`/`1` when there is none |
| ClientMisc.ParseServerId | core.js:375-380 | the result is always a valid region and amount pair, and any result other than the `us`/`1` fallback is the pair that `serverId` begins with, followed by a word boundary |
| ClientMisc.ParsersAgree | core.js:377-379 | where parseServerId finds a server, resolveServerKey finds the same one |
| ClientMisc.ParsersDisagreeOnEu10 | core.js:377 | `eu-10` is `eu-1` to resolveServerKey and the fallback `us/1` to parseServerId |
| ClientMisc.DbAlertUid | core.js:212-218 | at most 128 characters: the string form of the first truthy field, in field order, cut to 128; the random value only when no field is truthy |
| ClientMisc.Candidates | core.js:214-216 | the nine candidate fields, in the source's order, from `id` to `message` |
| ClientMisc.SelectHeadIsFirst | core.js:214-216 | `filter(Boolean)[0]` is the first truthy element |
| ClientMisc.DbAlertUidStable | core.js:212-218 | two alerts whose first truthy field has the same string form get the same uid, whatever the random values |
| ClientMisc.SeenAfterBounded | core.js:202-207 | exactly 200 entries when there are more, all of them otherwise, oldest first, each one of the stamped map's |
| ClientMisc.SeenAfterKeepsNewer | core.js:205 | no entry dropped is newer than one kept |
| ClientMisc.DroppedNoNewer | core.js:205 | in a time-ordered list, what lies before the cut is no newer than anything after it |
| ClientMisc.SeenAfterDistinct | core.js:203-206 | the stored map has no uid twice |
| ClientMisc.PermutationKeepsDistinct | core.js:205 | reordering an object's entries keeps its keys distinct |
| ClientMisc.OnlyOnce | core.js:205 | an entry of an object occurs in it once |
| ClientMisc.SeenAfterKeepsNewest | core.js:203-206 | when the clock has moved past every other entry, the uid just added is kept, as the newest entry |
| ClientMisc.PutOthersOlder | core.js:203 | stamping a uid leaves every other entry as it was |
| ClientMisc.NewestLast | core.js:205 | in a time-ordered object, the only entry not older than a time comes last |
| ClientMisc.SeenStore.Add | core.js:202-207 | the stored map becomes `SeenAfter` of the old one |
| ClientMisc.StripV | core.js:14 | one leading `v` is dropped, and nothing else changes |
| ClientMisc.UiVersionSpec | core.js:9-16 | the label is `v` and a non-empty version; it is the stored value when that is `x.y.z`; otherwise it depends on the script version only, and a script version `x.y.z` is used as it is |
| ClientMisc.UiVersion | core.js:9-16 | the label starts with `v` and has a version after it, and a well-formed stored version `x.y.z` is read back from it unchanged |
| Js.TrimIsInfix | server.js:42 | `trim` returns a slice of its input with only white space around it |
| Js.TrimEmptyIff | server.js:42 | `trim` gives the empty string iff the input is all white space |
| Js.TrimIdempotent | server.js:42 | trimming twice is trimming once |
| Js.NatDigitsRoundTrip | userserver.js:175 | the decimal digits of a natural number read back as that number |
| Js.ParseDecimalRoundTrip | core.js:58-62 | the decimal form of an integer parses back to it |
| Js.NumberOfStringRoundTrip | core.js:58-62 | `Number(String(n))` is `n` for every integer `n` |
| Seqs.SelectConcat | core.js:64 | filtering distributes over concatenation |
| Seqs.SelectMultiset | core.js:64 | filtering keeps exactly the passing elements, counted with multiplicity |
| Seqs.SortBySorted | core.js:74-82 | the sort's output is ordered by the comparator (its permutation property is the function's own contract) |
| Seqs.SortByStable | core.js:74-82 | elements the comparator ranks level keep their relative order |
| Seqs.SortBySortedIdentity | core.js:599 | sorting an already ordered list returns it unchanged |
| Assoc.Put | userserver.js:197 | assigning a property: the key then maps to the value, other keys keep theirs, a new key goes last and an existing one keeps its place |

## Left out

- File, network and storage I/O: `readKeys`/`writeKeys`, `ghLoad`/`ghSave`, `localStorage`, `GM_info`, `fetch`. The loaded document is the object's field or an input, and the saved one is the new field or an output. The read_failed/write_failed replies that a failed load or save would cause are not modelled. The `try`/`catch` around the seen store is not modelled.
- Express routing, CORS, rate limiting and logging; `/health`; the `/` route; `userserver.js` list-keys (lines 78-88), which only returns the loaded document.
- The clock and randomness: timestamps, `genKey()` and `Math.random()` are parameters supplied by the caller.
- Numbers are integers. Fractions, `Infinity`, exponent and hexadecimal strings, `-0` and numbers of 10^21 or more are outside the model. A string such as `"1e3"` or `"0x10"` is read as NaN.
- `localeCompare` is replaced by code-point order on names.
- Strings are sequences of characters, not UTF-16 code units. `slice(0, 128)` cuts characters.
- JavaScript objects enumerate integer-like keys first, in ascending order. The model keeps plain insertion order for all keys.
- Objects and arrays as field values are left out. Every player record has a `usernames` map. A missing or non-object `players` field, and array-valued entries, are left out.
- `normalizeFilterSort` on an array holding `null` or `undefined` throws in the source. The model's entries are always objects.
- The render function's DOM building and everything else in the client that touches the page, timers or the network.
- The second copy of the client at `core.js` lines 676-1091; it repeats the first.
- `core-publish.js`.
- Cleanup: `updatedAt`, the console summary and `process.exit` are left out. The saved players object and the three counters are the outputs.
- UserKeys.UserKeyDoc.AddKeys: the appended keys come from a caller-supplied list rather than `genKey()`, so their uniqueness is not modelled.
- Usernames.UsernameDoc.UpdateRealName, UserKeys.UserKeyDoc.AddKeys and UserKeys.UserKeyDoc.Revoke use the corrected admin gate `AdminOk`, not the gate as written (see Findings).
- UserKeys.Validate and UserKeys.RegisterOn compare proofs by their stored string form (`ProofMatches`), not with `===` as written (see Findings).
- Usernames.TrackJoinOn, Usernames.UpdateRealNameOn, Usernames.CountOf: the model's objects have no prototype. In the source, a name such as `constructor` or `toString` reads an inherited `Object.prototype` member: `u["constructor"] || 0` is the `Object` function, so its count becomes a string; a player id `toString` finds the inherited function, so no record is created; trackJoin then fails reading its `usernames` and answers write_failed, and updateRealName sets the real name on the function and saves an unchanged document. The model treats these as ordinary missing keys.
- LicenseServer.RequestedKeys: the contract does not state that the requested keys keep the input order; that follows from the definition through `Select`, but no lemma states it.
- LicenseServer.KeyStore.Revoke models the handler as written, which never changes the store. LicenseServer.KeyStore.RevokeCorrected is the intended handler.

## Findings

| source | as written | input that shows it | evidently intended | confidence | as-written member | corrected member |
|---|---|---|---|---|---|---|
| server.js:138 | `entry.revoked = True` assigns an undeclared identifier, which throws a ReferenceError before the store is written | an unused key "K1": revoke answers server_error, and a later redeem of "K1" succeeds | `entry.revoked = true`: the key is revoked and `revokedAt` recorded | high, not executed | LicenseServer.RevokeAsWritten, shown by LicenseServer.RevokeAsWrittenExample | LicenseServer.RevokeOn |
| userserver.js:92 | `req.header("admin-token") !== ADMIN_TOKEN` with `ADMIN_TOKEN` defaulting to `""` (line 14), also at lines 115 and 208 | no token configured and a request with an empty `admin-token` header: it passes the gate | refuse admin requests when no token is configured, as `requireAdmin` in server.js:105 does | medium, not executed | UserKeys.AdminOkAsWritten, shown by UserKeys.AdminGateFinding | UserKeys.AdminOk |
| userserver.js:145 | `proof === found.boundProof`, also at line 169, while line 175 stores `String(proof)` | register with the JSON number proof 123, which stores "123"; then validate with 123: bound_mismatch; register again: already_used | compare the proof in the form it was stored | medium, not executed | UserKeys.ProofMatchesAsWritten and UserKeys.ValidateAsWritten, shown by UserKeys.ProofComparisonFinding and UserKeys.NumberProofRegistered | UserKeys.ProofMatches |
