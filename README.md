# GriefPrevention (Sponge): claim flags, transfer and claim info in Dafny

This project models four pieces of the Sponge port of GriefPrevention, the
land-claim plugin for Minecraft servers:

- the `/cf` claim-flag command (`CommandClaimFlag`): which permission
  contexts a claim's flag listing uses, how the transient defaults, the
  persistent default overrides, the claim's own values and the admin
  overrides are merged into one sorted row per flag, when a value in a row
  gets a toggle callback and which hover text it shows, what the toggle
  writes, and how a direct `/cf <flag> <target> <value>` is validated;
- the helpers in `PlayerUtils`: reading a `Tristate` from a string
  (integer first, then a constant name in any case), the claim type a
  shovel mode creates, the two hand checks, reading an integer option (and
  recording a missing one as a transient option), and the display name of a
  player id;
- the `/transferclaim` command (`CommandClaimTransfer`): its guard chain and
  the owner change in the world's claim registry, with the admin-activity
  log entry written on success;
- the `/claiminfo` command (`CommandClaimInfo`): the first-match search by
  id or name, the owner it displays, who may view a claim, the four corners,
  the type colour, the trust-list strings and which lines the page shows.

Modules, one per file:

| file | module | what |
|---|---|---|
| `java_lang.dfy` | `JavaLang` | `Option`, ASCII `toUpperCase`/`equalsIgnoreCase`, the `String.compareTo` order and a key sort for `TreeMap`, `Integer.parseInt` and `String.valueOf(int)` |
| `claim_model.dfy` | `ClaimModel` | `Tristate`, permission nodes, command sources, the claim record, permission contexts and stores |
| `command_claim_flag.dfy` | `CommandClaimFlag` | the flag command |
| `player_utils.dfy` | `PlayerUtils` | the player helpers |
| `command_claim_transfer.dfy` | `CommandClaimTransfer` | the transfer command, the claim registry and the activity log |
| `command_claim_info.dfy` | `CommandClaimInfo` | the claim-info command |

How the model stands in for what it cannot see:

- A claim is a record (`Claim.java` is not part of this model). It keeps the
  type tag and the `isAdminClaim()` answer apart, so that an admin
  subdivision (shown DARK_AQUA) can be expressed; `Claim.WellFormed` ties
  them together. Its one `ownerId` field stands for both owner accessors the
  info command reads, `claim.getClaimData().getOwnerUniqueId()` and
  `claim.getOwnerUniqueId()`; see "## Left out".
- The permission service is a map from an exact context set to the
  key-to-boolean map `getPermissions` returns; `hasPermission` is membership
  in the source's permission set.
- `claim.allowEdit(player)` is a parameter (`denyReason`), the claim at the
  player's location is a parameter, user names are a function parameter,
  and `CommandHelper.applyFlagPermission`/`addFlagPermission` are recorded
  as the `FlagWrite` value holding their arguments.
- A Sponge `Text` row of the listing is a sequence of cells
  (`Label`, `Open`, `Sep`, `Value`, `Close`), so the bracket rules can be
  stated and proved; an info page is its list of lines plus the values the
  lines display.
- The listing's `HashMap` iteration order is unspecified, so each loop takes
  the next key by choice (`:|`); the `TreeMap` is a map whose keys are sorted
  by `String.compareTo` order.
- `ClaimWorldManager.transferClaimOwner` is not part of this model: the
  registry refuses a claim that has a parent and otherwise replaces that
  claim's owner and nothing else.

Three behaviours of the code that the model keeps as written:

- Hover text of a DEFAULT value (`CommandClaimFlag.java:259-272`): the
  missing manage-defaults permission is checked first, and a player's deny
  reason from the claim, checked after it, replaces that text.
- Listing completeness (`CommandClaimFlag.java:128-199`): the rows are keyed
  by the transient defaults, the claim values and the overrides, so a key
  set only as a persistent default gets no row
  (`CommandClaimFlag.PersistentDefaultAloneHasNoValues`).
- The new owner of a transfer (`CommandClaimTransfer.java:54-56`) is always
  the supplied user's id; the command has no path that transfers to
  "administrator".

## Model

| member | source | states |
|---|---|---|
| JavaLang.ToUpper | src/me/ryanhamshire/griefprevention/util/PlayerUtils.java:100 | upper-casing keeps the length and maps every character through the ASCII case table |
| JavaLang.EqualsIgnoreCaseIsEquivalence | src/me/ryanhamshire/griefprevention/command/CommandClaimInfo.java:78-84 | the case-insensitive comparison used by the claim search is reflexive, symmetric and transitive |
| JavaLang.EqualsIgnoreCaseAt | src/me/ryanhamshire/griefprevention/command/CommandClaimInfo.java:78-84 | two strings equal ignoring case have the same length and agree position by position up to case |
| JavaLang.LessTransitive | src/me/ryanhamshire/griefprevention/command/CommandClaimFlag.java:100 | the `String.compareTo` order the `TreeMap` of rows uses is transitive |
| JavaLang.LessTotal | src/me/ryanhamshire/griefprevention/command/CommandClaimFlag.java:100 | any two different keys are ordered one way or the other |
| JavaLang.MinimumExists | src/me/ryanhamshire/griefprevention/command/CommandClaimFlag.java:100 | every non-empty finite key set has a least key |
| JavaLang.SortedKeys | src/me/ryanhamshire/griefprevention/command/CommandClaimFlag.java:201 | the `TreeMap`'s keys in iteration order: strictly ascending, exactly the map's keys, each once |
| JavaLang.ParseInt | src/me/ryanhamshire/griefprevention/util/PlayerUtils.java:84 | `Integer.parseInt` succeeds iff the string is one optional sign followed by at least one digit and the signed value fits in 32 bits, and then returns exactly that signed value |
| JavaLang.NatToDigitsValue | src/me/ryanhamshire/griefprevention/util/PlayerUtils.java:130 | the decimal digits `String.valueOf` prints for a natural number read back as that number |
| JavaLang.ParseIntOfIntToString | src/me/ryanhamshire/griefprevention/util/PlayerUtils.java:124-130 | parsing what `String.valueOf(int)` printed gives the same int back |
| ClaimModel.FromBoolean | src/me/ryanhamshire/griefprevention/command/CommandClaimFlag.java:140 | a stored boolean is never shown as UNDEFINED |
| CommandClaimFlag.Toggle | src/me/ryanhamshire/griefprevention/command/CommandClaimFlag.java:226-232 | a toggle always changes the value |
| CommandClaimFlag.ToggleIsThreeCycle | src/me/ryanhamshire/griefprevention/command/CommandClaimFlag.java:226-252 | three toggles return the start value, two never do, and only UNDEFINED toggles to TRUE |
| CommandClaimFlag.RunConsumer | src/me/ryanhamshire/griefprevention/command/CommandClaimFlag.java:223-254 | a callback writes only for DEFAULT, CLAIM and OVERRIDE; it writes the toggled value, target "any", the captured flag, source and claim, and the context "default", none or "forced" by layer |
| CommandClaimFlag.GetClickableText | src/me/ryanhamshire/griefprevention/command/CommandClaimFlag.java:256-281 | a callback is attached iff the layer's manage permission is held (DEFAULT, OVERRIDE) and a player's claim gives no deny reason; which hover text wins in each case |
| CommandClaimFlag.OverrideWithoutPermissionIgnoresClaim | src/me/ryanhamshire/griefprevention/command/CommandClaimFlag.java:263-272 | without the manage-overrides permission an OVERRIDE cell does not depend on the claim's deny reason |
| CommandClaimFlag.ClickWritesToggledValue | src/me/ryanhamshire/griefprevention/command/CommandClaimFlag.java:277-279 | clicking an editable cell writes the toggled value of that flag at the cell's own layer |
| CommandClaimFlag.SelectContexts | src/me/ryanhamshire/griefprevention/command/CommandClaimFlag.java:101-123 | the exact context sets per claim type: defaults are the type's default context and the world, plus the registered custom context the source names; overrides are the type's override context and the world for admin and basic claims and subdivisions, empty for the wilderness; the source is "any" when missing |
| CommandClaimFlag.SeparatedRoundTrip | src/me/ryanhamshire/griefprevention/command/CommandClaimFlag.java:148-198 | the ", "-separated values read back as the values, and contain no "]" |
| CommandClaimFlag.RowShape | src/me/ryanhamshire/griefprevention/command/CommandClaimFlag.java:128-199 | every row starts with the flag and "[", ends with exactly one "]", and shows the values of the reference definition |
| CommandClaimFlag.RowLayers | src/me/ryanhamshire/griefprevention/command/CommandClaimFlag.java:135-198 | a row has a DEFAULT value iff the key has a transient default (showing the persistent value when there is one), a CLAIM value iff a claim value or a default exists (an empty UNDEFINED slot when only the default does), and ends with the OVERRIDE value iff an override exists |
| CommandClaimFlag.PersistentDefaultAloneHasNoValues | src/me/ryanhamshire/griefprevention/command/CommandClaimFlag.java:124-128 | a key set only as a persistent default contributes no values |
| CommandClaimFlag.FinalStageIsExpected | src/me/ryanhamshire/griefprevention/command/CommandClaimFlag.java:147-198 | the rows the three loops build, by which layers a key is in, are the reference rows |
| CommandClaimFlag.DefaultRows | src/me/ryanhamshire/griefprevention/command/CommandClaimFlag.java:128-157 | the first loop makes one row per transient default, closed only when there is neither a claim value nor an override |
| CommandClaimFlag.OverrideLoopStep | src/me/ryanhamshire/griefprevention/command/CommandClaimFlag.java:182-199 | one step of the third loop joins the override to the row so far, giving that key's reference stage, and keeps the loop's invariant |
| CommandClaimFlag.ValuesInOrder | src/me/ryanhamshire/griefprevention/command/CommandClaimFlag.java:201 | the list of the `TreeMap`'s values holds the row of each key, in key order |
| CommandClaimFlag.ClaimLoopStep | src/me/ryanhamshire/griefprevention/command/CommandClaimFlag.java:159-180 | one step of the second loop joins the claim value to the row so far, giving that key's reference stage, and keeps the loop's invariant |
| CommandClaimFlag.AddClaimRows | src/me/ryanhamshire/griefprevention/command/CommandClaimFlag.java:159-180 | the second loop adds each claim value to its default row or opens a row for it, closing it unless an override follows |
| CommandClaimFlag.AddOverrideRows | src/me/ryanhamshire/griefprevention/command/CommandClaimFlag.java:182-199 | the third loop adds each override and closes its row; afterwards every row is the reference row |
| CommandClaimFlag.ListFlags | src/me/ryanhamshire/griefprevention/command/CommandClaimFlag.java:100-201 | the listing has one row per key of the transient defaults, claim values and overrides, in ascending key order, each the reference row |
| CommandClaimFlag.ListingBranch | src/me/ryanhamshire/griefprevention/command/CommandClaimFlag.java:99-206 | the listing branch queries the four maps under the selected contexts and lists them |
| CommandClaimFlag.SourceAndTarget | src/me/ryanhamshire/griefprevention/command/CommandClaimFlag.java:74-83 | no target, one target, or two and more targets forcing source "any" and taking the second |
| CommandClaimFlag.Execute | src/me/ryanhamshire/griefprevention/command/CommandClaimFlag.java:70-221 | non-player, no claim, listing iff no flag, no value and the list permission, a direct write iff flag and value are given and the flag is in the default-flag catalogue ("Invalid flag entered." otherwise), usage message in every other case |
| PlayerUtils.HasItemInOneHand | src/me/ryanhamshire/griefprevention/util/PlayerUtils.java:50-58 | true iff the main or the off hand holds that item type |
| PlayerUtils.HasAnyItemInHand | src/me/ryanhamshire/griefprevention/util/PlayerUtils.java:60-68 | true iff either hand holds something |
| PlayerUtils.AnyItemIffSomeItemType | src/me/ryanhamshire/griefprevention/util/PlayerUtils.java:50-68 | the one-argument overload holds iff the two-argument one holds for some item type |
| PlayerUtils.ClaimTypeFromShovel | src/me/ryanhamshire/griefprevention/util/PlayerUtils.java:70-78 | Admin gives ADMIN, Subdivide gives SUBDIVISION, every other mode BASIC, never WILDERNESS |
| PlayerUtils.ValueOf | src/me/ryanhamshire/griefprevention/util/PlayerUtils.java:100-103 | `Tristate.valueOf` finds exactly the constant of that name, otherwise nothing |
| PlayerUtils.FromInt | src/me/ryanhamshire/griefprevention/util/PlayerUtils.java:85-91 | FALSE iff the integer is negative, UNDEFINED iff it is zero, TRUE iff it is positive |
| PlayerUtils.TristateFromString | src/me/ryanhamshire/griefprevention/util/PlayerUtils.java:80-106 | a parseable integer decides by its value; only a string that does not parse reaches the upper-cased name lookup |
| PlayerUtils.IntegerSignDecides | src/me/ryanhamshire/griefprevention/util/PlayerUtils.java:84-92 | an integer -1 or less gives FALSE, 0 UNDEFINED, 1 or more TRUE |
| PlayerUtils.NameInAnyCase | src/me/ryanhamshire/griefprevention/util/PlayerUtils.java:99-105 | "true", "False", "undefined" and every other casing of a constant's name give that constant |
| PlayerUtils.OtherStringsAreNull | src/me/ryanhamshire/griefprevention/util/PlayerUtils.java:99-105 | a string that is neither an integer nor a constant's name in any case gives null |
| PlayerUtils.OutOfRangeNumeralIsNull | src/me/ryanhamshire/griefprevention/util/PlayerUtils.java:83-102 | a numeral (one optional "+" or "-" and at least one digit) whose signed value is outside 32 bits fails `parseInt`, falls through to the name lookup and gives null |
| PlayerUtils.PrintedIntRoundTrip | src/me/ryanhamshire/griefprevention/util/PlayerUtils.java:84-92 | a printed int reads back as the Tristate of its sign |
| PlayerUtils.IntOption | src/me/ryanhamshire/griefprevention/util/PlayerUtils.java:122-128 | an option that parses gives its 32-bit value, one that does not gives the default |
| PlayerUtils.RecordedDefaultReadsBack | src/me/ryanhamshire/griefprevention/util/PlayerUtils.java:124-130 | the default recorded for a missing option is read back as that default |
| PlayerUtils.GlobalSubject.GetOptionIntValue | src/me/ryanhamshire/griefprevention/util/PlayerUtils.java:120-133 | a present option is read and nothing is written; a missing one returns the default and records it, printed, as the transient option under the key |
| PlayerUtils.LookupPlayerName | src/me/ryanhamshire/griefprevention/util/PlayerUtils.java:166-177 | "administrator" for the world user, "someone" plus one error log entry for an unknown id, the stored name otherwise |
| CommandClaimTransfer.Transferred | src/me/ryanhamshire/griefprevention/command/CommandClaimTransfer.java:59-61 | the registry's owner change is refused iff the claim has a parent; otherwise the registry keeps its claim ids and the claim has the new owner |
| CommandClaimTransfer.TransferChangesOnlyTheOwner | src/me/ryanhamshire/griefprevention/command/CommandClaimTransfer.java:59-65 | a claim with a parent is refused; a top-level claim gets the new owner and nothing else in the registry changes |
| CommandClaimTransfer.TransferIsIdempotent | src/me/ryanhamshire/griefprevention/command/CommandClaimTransfer.java:59-61 | transferring again to the same owner changes nothing more |
| CommandClaimTransfer.ClaimWorldManager.TransferClaimOwner | src/me/ryanhamshire/griefprevention/command/CommandClaimTransfer.java:59-65 | the registry refuses iff the claim has a parent, and then changes nothing |
| CommandClaimTransfer.ActivityLog.Add | src/me/ryanhamshire/griefprevention/command/CommandClaimTransfer.java:69-71 | an entry is appended to the log |
| CommandClaimTransfer.Guard | src/me/ryanhamshire/griefprevention/command/CommandClaimTransfer.java:26-49 | the checks in order, each stop exactly characterised: a console stops first; a player without a claim or in the wilderness next; a player in an admin claim without the admin-claims permission next; the transfer is attempted iff the source is a player, the claim exists, is not the wilderness, and is not an admin claim unless the permission is held |
| CommandClaimTransfer.PermissionOnlyForAdminClaims | src/me/ryanhamshire/griefprevention/command/CommandClaimTransfer.java:42 | a player reaches the transfer of a non-admin claim without the admin-claims permission |
| CommandClaimTransfer.Execute | src/me/ryanhamshire/griefprevention/command/CommandClaimTransfer.java:25-75 | each guard's message and result with nothing changed; a refused transfer gives TransferTopLevel and an empty result with no log entry; success changes only the owner to the supplied user's id and adds exactly one log entry naming the new owner |
| CommandClaimInfo.Matches | src/me/ryanhamshire/griefprevention/command/CommandClaimInfo.java:78-87 | a claim answers to its own id and to its own non-empty name; a match has the identifier's length on the id or on a non-empty name |
| CommandClaimInfo.MatchIgnoresIdentCase | src/me/ryanhamshire/griefprevention/command/CommandClaimInfo.java:78-87 | two identifiers equal ignoring case match the same claims |
| CommandClaimInfo.FirstIn | src/me/ryanhamshire/griefprevention/command/CommandClaimInfo.java:77-88 | a claim found in one world is one of its claims and matches |
| CommandClaimInfo.FirstMatch | src/me/ryanhamshire/griefprevention/command/CommandClaimInfo.java:75-93 | a claim found is a claim of some world and matches |
| CommandClaimInfo.FirstInIgnoresIdentCase | src/me/ryanhamshire/griefprevention/command/CommandClaimInfo.java:77-88 | the search in one world finds the same claim for two identifiers equal ignoring case |
| CommandClaimInfo.SearchIgnoresIdentCase | src/me/ryanhamshire/griefprevention/command/CommandClaimInfo.java:75-93 | the search finds the same claim for two identifiers equal ignoring case |
| CommandClaimInfo.FirstInIsFirst | src/me/ryanhamshire/griefprevention/command/CommandClaimInfo.java:77-89 | the search in one world finds nothing iff no claim matches, otherwise a matching claim with no match before it |
| CommandClaimInfo.FirstMatchIsFirst | src/me/ryanhamshire/griefprevention/command/CommandClaimInfo.java:75-93 | across the worlds in order, the search finds nothing iff no claim matches, otherwise the first match in search order |
| CommandClaimInfo.FindClaim | src/me/ryanhamshire/griefprevention/command/CommandClaimInfo.java:75-93 | the nested loops with their breaks return the first claim whose id or non-empty name equals the identifier ignoring case |
| CommandClaimInfo.ShownOwner | src/me/ryanhamshire/griefprevention/command/CommandClaimInfo.java:101-119 | the wilderness shows "administrator"; a claim with a parent shows the parent's owner; any other claim its own owner |
| CommandClaimInfo.SubdivisionShowsParentOwner | src/me/ryanhamshire/griefprevention/command/CommandClaimInfo.java:101-104 | a subdivision shows its parent's owner, whatever its own owner field holds |
| CommandClaimInfo.MayView | src/me/ryanhamshire/griefprevention/command/CommandClaimInfo.java:106-114 | the owner, a player with container, builder or manager trust, and a player with the info-others permission may view; nobody else may |
| CommandClaimInfo.AccessorsDoNotGrantView | src/me/ryanhamshire/griefprevention/command/CommandClaimInfo.java:106-114 | the accessor list never decides whether a player may view a claim |
| CommandClaimInfo.ParentOwnerNeedsTrustInSubdivision | src/me/ryanhamshire/griefprevention/command/CommandClaimInfo.java:101-114 | the view check uses the claim's own owner: the displayed parent owner without trust or the info-others permission is refused |
| CommandClaimInfo.CornersOf | src/me/ryanhamshire/griefprevention/command/CommandClaimInfo.java:129-132 | all four corners at y 65; west corners on the lesser x, east on the greater; north corners on the lesser z, south on the greater |
| CommandClaimInfo.CornersAreCompassCorners | src/me/ryanhamshire/griefprevention/command/CommandClaimInfo.java:129-132 | the four corners are at y 65, west on the lesser x, east on the greater x, north on the lesser z, south on the greater z, all within the claim's footprint |
| CommandClaimInfo.TypeColorOf | src/me/ryanhamshire/griefprevention/command/CommandClaimInfo.java:168-177 | DARK_AQUA iff admin and subdivision, RED iff admin and not subdivision, AQUA iff subdivision and not admin, GREEN otherwise |
| CommandClaimInfo.TypeColorByKind | src/me/ryanhamshire/griefprevention/command/CommandClaimInfo.java:168-177 | an ADMIN claim is red, a basic claim and the wilderness green |
| CommandClaimInfo.JoinNamesEmptyIffNoIds | src/me/ryanhamshire/griefprevention/command/CommandClaimInfo.java:151-166 | a trust-list string is empty iff the list is, at least one character per entry |
| CommandClaimInfo.JoinNamesAppend | src/me/ryanhamshire/griefprevention/command/CommandClaimInfo.java:151-154 | the accumulated string of two lists is the concatenation of theirs |
| CommandClaimInfo.AclNames | src/me/ryanhamshire/griefprevention/command/CommandClaimInfo.java:151-154 | the loop accumulates each user's name followed by a space, in list order |
| CommandClaimInfo.AclShown | src/me/ryanhamshire/griefprevention/command/CommandClaimInfo.java:221-224 | an empty trust string shows "none", any other shows itself |
| CommandClaimInfo.InfoLines | src/me/ryanhamshire/griefprevention/command/CommandClaimInfo.java:229-283 | every page starts and ends with a footer followed by name, owner and type, and has the InheritParent line iff the claim has a parent |
| CommandClaimInfo.InfoLinesBySection | src/me/ryanhamshire/griefprevention/command/CommandClaimInfo.java:229-283 | InheritParent only for a claim with a parent; trust lists, LastActive and corners for every claim but the wilderness; name, owner, type and id always; a footer first and last |
| CommandClaimInfo.ParentPageAddsInheritLine | src/me/ryanhamshire/griefprevention/command/CommandClaimInfo.java:229-269 | a claim with a parent gets the top-level page with InheritParent inserted after Type |
| CommandClaimInfo.Execute | src/me/ryanhamshire/griefprevention/command/CommandClaimInfo.java:59-286 | no player and no id stops at once; no claim found, no permission, or the page of the claim with its owner, colour, corners, trust lists and lines |

## Left out

- Sponge `Text`, colours, hover and click wiring, and pagination: rows and pages keep only their cells or lines and the values they show; the label is the full permission key (the `FLAG_BASE` prefix stripping and the flag overlay hover texts are not modelled), and the second hover line from `getFlagTypeHoverText` is not modelled.
- The permission service (`GLOBAL_SUBJECT`, `getPermissions`, `hasPermission`, `setOption`): modelled as maps and a permission set; persistence is not modelled.
- `CommandHelper.applyFlagPermission` and `addFlagPermission`: their code is not part of this model; the model records the call and its arguments, so what the write does to the stores (including clearing on UNDEFINED) is not modelled.
- `claim.allowEdit`, `getClaimAtPlayer`/`getClaimAt` and the spatial lookup: their code is not part of this model; their answers are parameters.
- The GROUP and PLAYER flag types: the command never shows them; their callback writes nothing, as in the code.
- `rayTracePlayerEyes`, `rayTracePlayerEyeHitVec` and `getOptionDoubleValue`: floating point and world queries.
- `resolvePlayerByName` and the user storage: foreign services; user names are a map or a function parameter.
- The creation and last-active dates, the greeting, farewell, PvP, world name, area and 2D/3D fields of the info page, and the teleport callbacks on the corners: presentation and library calls.
- The text of the transfer log entry (`getfriendlyLocationString`) and of the message keys: the log entry keeps the actor, the lesser corner and the new owner's name.
- JavaLang.ToUpper: ASCII case folding only; the locale-dependent behaviour of `toUpperCase` and `equalsIgnoreCase` is not modelled.
- JavaLang.ParseInt: ASCII digits only; `Integer.parseInt` also accepts other Unicode decimal digits.
- PlayerUtils.LookupPlayerName: the exception `UUID.fromString` throws for a malformed id string is not modelled.
- CommandClaimTransfer.ClaimWorldManager.TransferClaimOwner: the registry's code is not part of this model; it refuses exactly the claims that have a parent and changes only the owner.
- CommandClaimInfo.Execute: a source that is not a player and names an existing claim makes the command dereference a missing player; the precondition excludes that input instead of modelling the failure.
- JavaLang.Less: compares strings by Unicode scalar value; `String.compareTo` compares UTF-16 code units, so the two orders differ only for keys that hold characters outside the Basic Multilingual Plane.
- CommandClaimInfo.ParentOwnerNeedsTrustInSubdivision: relies on the single `ownerId` field standing for both `claim.getOwnerUniqueId()` (the view check, `CommandClaimInfo.java:106`) and `claim.getClaimData().getOwnerUniqueId()` (the Owner line, `CommandClaimInfo.java:101`); `Claim.java` is not part of this model, and if `getOwnerUniqueId()` returned a subdivision's parent owner, that owner could view the subdivision without trust.
- Concurrency: the commands run on the server's command thread; nothing here is concurrent.
