/** CommandClaimInfo: find a claim (the one at the player, or the first one
    whose id or name matches the given identifier in any case), check that
    the player may view it, and choose what the information page shows. */
module CommandClaimInfo {
  import opened JavaLang
  import opened ClaimModel

  // ---------------------------------------------------------------------
  // Lookup by identifier

  /** A claim answers to an identifier by its id, or by a non-empty name,
      ignoring case. */
  predicate Matches(c: Claim, ident: string): (m: bool)
    ensures c.id == ident ==> m
    ensures c.name == Some(ident) && ident != [] ==> m
    ensures m ==> |ident| == |c.id| || (c.name.Some? && 0 < |c.name.value| == |ident|)
  {
    || EqualsIgnoreCase(c.id, ident)
    || (c.name.Some? && c.name.value != [] && EqualsIgnoreCase(c.name.value, ident))
  }

  /** The first claim of one world's list that matches. */
  function FirstIn(cs: seq<Claim>, ident: string): (r: Option<Claim>)
    ensures r.Some? ==> r.value in cs && Matches(r.value, ident)
  {
    if cs == [] then None
    else if Matches(cs[0], ident) then Some(cs[0])
    else FirstIn(cs[1..], ident)
  }

  /** The first matching claim, worlds in server order and each world's
      claims in list order. */
  function FirstMatch(worlds: seq<seq<Claim>>, ident: string): (r: Option<Claim>)
    ensures r.Some? ==> Matches(r.value, ident) && InSomeWorld(worlds, r.value)
  {
    if worlds == [] then None
    else if FirstIn(worlds[0], ident).Some? then FirstIn(worlds[0], ident)
    else FirstMatch(worlds[1..], ident)
  }

  /** `c` is one of the claims of some world. */
  ghost predicate InSomeWorld(worlds: seq<seq<Claim>>, c: Claim)
  {
    exists i :: 0 <= i < |worlds| && c in worlds[i]
  }

  /** No claim before position (w, c) in search order matches. */
  ghost predicate NoneBefore(worlds: seq<seq<Claim>>, ident: string, w: int, c: int)
  {
    forall i, j :: 0 <= i < |worlds| && 0 <= j < |worlds[i]| && (i < w || (i == w && j < c)) ==>
      !Matches(worlds[i][j], ident)
  }

  lemma {:induction false} FirstInIsFirst(cs: seq<Claim>, ident: string)
    ensures FirstIn(cs, ident).None? <==> forall j :: 0 <= j < |cs| ==> !Matches(cs[j], ident)
    ensures FirstIn(cs, ident).Some? ==>
      exists j :: 0 <= j < |cs| && cs[j] == FirstIn(cs, ident).value && Matches(cs[j], ident)
        && forall k :: 0 <= k < j ==> !Matches(cs[k], ident)
  {
    if cs == [] {
    } else if Matches(cs[0], ident) {
      assert cs[0] == FirstIn(cs, ident).value;
    } else {
      var tail := cs[1..];
      FirstInIsFirst(tail, ident);
      assert FirstIn(cs, ident) == FirstIn(tail, ident);
      if FirstIn(tail, ident).Some? {
        var j :| 0 <= j < |tail| && tail[j] == FirstIn(tail, ident).value && Matches(tail[j], ident)
          && forall k :: 0 <= k < j ==> !Matches(tail[k], ident);
        assert cs[j + 1] == tail[j];
        forall k | 0 <= k < j + 1 ensures !Matches(cs[k], ident) {
          if k > 0 { assert cs[k] == tail[k - 1]; }
        }
      } else {
        forall j | 0 <= j < |cs| ensures !Matches(cs[j], ident) {
          if j > 0 { assert cs[j] == tail[j - 1]; }
        }
      }
    }
  }

  /** The search finds nothing exactly when no claim of any world matches,
      and otherwise finds a matching claim with no match before it. */
  lemma {:induction false} FirstMatchIsFirst(worlds: seq<seq<Claim>>, ident: string)
    ensures FirstMatch(worlds, ident).None? <==> NoneBefore(worlds, ident, |worlds|, 0)
    ensures FirstMatch(worlds, ident).Some? ==>
      exists i, j :: 0 <= i < |worlds| && 0 <= j < |worlds[i]|
        && worlds[i][j] == FirstMatch(worlds, ident).value && Matches(worlds[i][j], ident)
        && NoneBefore(worlds, ident, i, j)
  {
    if worlds != [] {
      FirstInIsFirst(worlds[0], ident);
      FirstMatchIsFirst(worlds[1..], ident);
      if FirstIn(worlds[0], ident).Some? {
        var j :| 0 <= j < |worlds[0]| && worlds[0][j] == FirstIn(worlds[0], ident).value
          && Matches(worlds[0][j], ident) && forall k :: 0 <= k < j ==> !Matches(worlds[0][k], ident);
        assert NoneBefore(worlds, ident, 0, j);
      } else {
        var rest := worlds[1..];
        assert forall i :: 1 <= i < |worlds| ==> worlds[i] == rest[i - 1];
        if FirstMatch(rest, ident).Some? {
          var i, j :| 0 <= i < |rest| && 0 <= j < |rest[i]|
            && rest[i][j] == FirstMatch(rest, ident).value && Matches(rest[i][j], ident)
            && NoneBefore(rest, ident, i, j);
          assert worlds[i + 1][j] == rest[i][j];
          assert NoneBefore(worlds, ident, i + 1, j);
        }
      }
    }
  }

  /** The nested search of execute, leaving both loops at the first match. */
  method FindClaim(worlds: seq<seq<Claim>>, ident: string) returns (claim: Option<Claim>)
    ensures claim == FirstMatch(worlds, ident)
  {
    claim := None;
    var w := 0;
    while w < |worlds|
      invariant 0 <= w <= |worlds|
      invariant claim.None?
      invariant FirstMatch(worlds, ident) == FirstMatch(worlds[w..], ident)
    {
      var c := 0;
      while c < |worlds[w]|
        invariant 0 <= c <= |worlds[w]|
        invariant claim.None?
        invariant FirstIn(worlds[w], ident) == FirstIn(worlds[w][c..], ident)
      {
        var worldClaim := worlds[w][c];
        if EqualsIgnoreCase(worldClaim.id, ident) {
          claim := Some(worldClaim);
          break;
        }
        if worldClaim.name.Some? && worldClaim.name.value != [] {
          if EqualsIgnoreCase(worldClaim.name.value, ident) {
            claim := Some(worldClaim);
            break;
          }
        }
        assert worlds[w][c..][1..] == worlds[w][c + 1..];
        c := c + 1;
      }
      if claim.Some? {
        assert FirstMatch(worlds[w..], ident) == FirstIn(worlds[w], ident);
        break;
      }
      assert worlds[w][c..] == [];
      assert worlds[w..][1..] == worlds[w + 1..];
      w := w + 1;
    }
  }

  /** One claim answers to two identifiers that are equal ignoring case
      alike. */
  lemma MatchIgnoresIdentCase(c: Claim, a: string, b: string)
    requires EqualsIgnoreCase(a, b)
    ensures Matches(c, a) <==> Matches(c, b)
  {
    EqualsIgnoreCaseIsEquivalence(c.id, a, b);
    EqualsIgnoreCaseIsEquivalence(c.id, b, a);
    if c.name.Some? {
      EqualsIgnoreCaseIsEquivalence(c.name.value, a, b);
      EqualsIgnoreCaseIsEquivalence(c.name.value, b, a);
    }
  }

  /** The search finds the same claim for two identifiers that are equal
      ignoring case. */
  lemma {:induction false} SearchIgnoresIdentCase(worlds: seq<seq<Claim>>, a: string, b: string)
    requires EqualsIgnoreCase(a, b)
    ensures FirstMatch(worlds, a) == FirstMatch(worlds, b)
  {
    if worlds != [] {
      FirstInIgnoresIdentCase(worlds[0], a, b);
      SearchIgnoresIdentCase(worlds[1..], a, b);
    }
  }

  lemma {:induction false} FirstInIgnoresIdentCase(cs: seq<Claim>, a: string, b: string)
    requires EqualsIgnoreCase(a, b)
    ensures FirstIn(cs, a) == FirstIn(cs, b)
  {
    if cs != [] {
      MatchIgnoresIdentCase(cs[0], a, b);
      FirstInIgnoresIdentCase(cs[1..], a, b);
    }
  }

  // ---------------------------------------------------------------------
  // Owner, view permission, corners, colour

  /** Whom the Owner line names. */
  datatype OwnerShown = Administrator | UserOf(id: Uuid)

  /** The claim data's owner, replaced by the parent's owner for a claim
      with a parent; the wilderness shows "administrator". */
  function ShownOwner(claim: Claim): (o: OwnerShown)
    ensures claim.IsWildernessClaim() <==> o == Administrator
    ensures !claim.IsWildernessClaim() && claim.parent.Some? ==> o == UserOf(claim.parent.value.ownerId)
    ensures !claim.IsWildernessClaim() && claim.parent.None? ==> o == UserOf(claim.ownerId)
  {
    if claim.IsWildernessClaim() then Administrator
    else if claim.parent.Some? then UserOf(claim.parent.value.ownerId)
    else UserOf(claim.ownerId)
  }

  /** A subdivision shows its parent's owner, whoever owns the subdivision's
      own data. */
  lemma SubdivisionShowsParentOwner(claim: Claim, anyOwner: Uuid)
    requires claim.WellFormed() && claim.IsSubdivision()
    ensures ShownOwner(claim) == UserOf(claim.parent.value.ownerId)
    ensures ShownOwner(claim.(ownerId := anyOwner)) == ShownOwner(claim)
  {
  }

  /** A player may view a claim they own, one where they hold container,
      builder or manager trust, or any claim with the info-others
      permission. Access trust alone is not enough. */
  predicate MayView(playerId: Uuid, perms: set<Permission>, claim: Claim): (ok: bool)
    ensures ClaimInfoOthers in perms ==> ok
    ensures playerId == claim.ownerId ==> ok
    ensures playerId in claim.containers + claim.builders + claim.managers ==> ok
    ensures ok && ClaimInfoOthers !in perms && playerId != claim.ownerId ==>
      playerId in claim.containers + claim.builders + claim.managers
  {
    || playerId == claim.ownerId
    || playerId in claim.containers
    || playerId in claim.builders
    || playerId in claim.managers
    || ClaimInfoOthers in perms
  }

  /** The accessor list never decides the view check. */
  lemma AccessorsDoNotGrantView(playerId: Uuid, perms: set<Permission>, claim: Claim, accessors: seq<Uuid>)
    ensures MayView(playerId, perms, claim.(accessors := accessors)) <==> MayView(playerId, perms, claim)
  {
  }

  /** The view check compares against the claim's own owner, not the
      parent's owner that the page displays: the parent's owner, untrusted
      in a subdivision, may not view it without the info-others permission. */
  lemma ParentOwnerNeedsTrustInSubdivision(claim: Claim, perms: set<Permission>)
    requires claim.parent.Some? && ClaimInfoOthers !in perms
    requires claim.parent.value.ownerId != claim.ownerId
    requires claim.parent.value.ownerId !in claim.containers + claim.builders + claim.managers
    ensures !MayView(claim.parent.value.ownerId, perms, claim)
  {
    var p := claim.parent.value.ownerId;
    assert p !in claim.containers && p !in claim.builders by {
      assert claim.containers <= claim.containers + claim.builders + claim.managers;
    }
    assert p !in claim.managers;
  }

  /** The four corners, at height 65. */
  datatype Corners = Corners(southWest: Pos, northWest: Pos, southEast: Pos, northEast: Pos)

  const CornerHeight: int := 65

  function CornersOf(claim: Claim): (k: Corners)
    ensures k.southWest.x == k.northWest.x == claim.lesser.x
    ensures k.southEast.x == k.northEast.x == claim.greater.x
    ensures k.northWest.z == k.northEast.z == claim.lesser.z
    ensures k.southWest.z == k.southEast.z == claim.greater.z
    ensures k.southWest.y == k.northWest.y == k.southEast.y == k.northEast.y == CornerHeight
  {
    Corners(
      Pos(claim.lesser.x, CornerHeight, claim.greater.z),
      Pos(claim.lesser.x, CornerHeight, claim.lesser.z),
      Pos(claim.greater.x, CornerHeight, claim.greater.z),
      Pos(claim.greater.x, CornerHeight, claim.lesser.z))
  }

  /** West corners lie on the lesser x edge and east corners on the greater;
      north corners (towards negative z) on the lesser z edge and south
      corners on the greater. Every corner lies in the claim's footprint, and
      together they are all four combinations of the two edges. */
  lemma CornersAreCompassCorners(claim: Claim)
    requires claim.WellFormed()
    ensures var k := CornersOf(claim);
      && k.southWest.x == k.northWest.x == claim.lesser.x
      && k.southEast.x == k.northEast.x == claim.greater.x
      && k.northWest.z == k.northEast.z == claim.lesser.z
      && k.southWest.z == k.southEast.z == claim.greater.z
      && k.northWest.z <= k.southWest.z && k.northWest.x <= k.northEast.x
      && (forall p :: p in {k.southWest, k.northWest, k.southEast, k.northEast} ==>
            p.y == CornerHeight
            && claim.lesser.x <= p.x <= claim.greater.x
            && claim.lesser.z <= p.z <= claim.greater.z)
  {
  }

  /** The colour of the claim type on the Type line. */
  datatype TypeColor = GREEN | RED | DARK_AQUA | AQUA

  function TypeColorOf(claim: Claim): (c: TypeColor)
    ensures c == DARK_AQUA <==> claim.IsAdminClaim() && claim.IsSubdivision()
    ensures c == RED <==> claim.IsAdminClaim() && !claim.IsSubdivision()
    ensures c == AQUA <==> !claim.IsAdminClaim() && claim.IsSubdivision()
    ensures c == GREEN <==> !claim.IsAdminClaim() && !claim.IsSubdivision()
  {
    if claim.IsAdminClaim() then (if claim.IsSubdivision() then DARK_AQUA else RED)
    else if claim.IsSubdivision() then AQUA
    else GREEN
  }

  /** For well-formed claims: an ADMIN claim is red, a basic claim and the
      wilderness green. */
  lemma TypeColorByKind(claim: Claim)
    requires claim.WellFormed()
    ensures claim.kind == ADMIN ==> TypeColorOf(claim) == RED
    ensures claim.kind == BASIC || claim.kind == WILDERNESS ==> TypeColorOf(claim) == GREEN
  {
  }

  // ---------------------------------------------------------------------
  // Trust lists

  /** The accumulated name string: each name followed by one space. */
  function JoinNames(ids: seq<Uuid>, nameOf: Uuid -> string): string
  {
    if ids == [] then "" else JoinNames(ids[..|ids| - 1], nameOf) + nameOf(ids[|ids| - 1]) + " "
  }

  /** The string is empty (and the page shows "none") exactly when the list
      is empty, whatever the names; it is at least one character per entry. */
  lemma {:induction false} JoinNamesEmptyIffNoIds(ids: seq<Uuid>, nameOf: Uuid -> string)
    ensures JoinNames(ids, nameOf) == "" <==> ids == []
    ensures |JoinNames(ids, nameOf)| >= |ids|
  {
    if ids != [] {
      JoinNamesEmptyIffNoIds(ids[..|ids| - 1], nameOf);
    }
  }

  /** Joining distributes over concatenation of the lists. */
  lemma {:induction false} JoinNamesAppend(a: seq<Uuid>, b: seq<Uuid>, nameOf: Uuid -> string)
    ensures JoinNames(a + b, nameOf) == JoinNames(a, nameOf) + JoinNames(b, nameOf)
    decreases |b|
  {
    if b == [] {
      assert a + b == a;
    } else {
      var b' := b[..|b| - 1];
      assert (a + b)[..|a + b| - 1] == a + b';
      assert (a + b)[|a + b| - 1] == b[|b| - 1];
      JoinNamesAppend(a, b', nameOf);
    }
  }

  /** The loop over one trust list. `nameOf` is the name of the user
      getOrCreateUser returns for an id. */
  method AclNames(ids: seq<Uuid>, nameOf: Uuid -> string) returns (s: string)
    ensures s == JoinNames(ids, nameOf)
  {
    s := "";
    var i := 0;
    while i < |ids|
      invariant 0 <= i <= |ids|
      invariant s == JoinNames(ids[..i], nameOf)
    {
      assert ids[..i + 1][..i] == ids[..i];
      s := s + nameOf(ids[i]) + " ";
      i := i + 1;
    }
    assert ids[..|ids|] == ids;
  }

  /** A trust line shows the names, or "none" (None) for an empty string. */
  function AclShown(s: string): (r: Option<string>)
    ensures r.None? <==> s == ""
    ensures r.Some? ==> r.value == s
  {
    if s == "" then None else Some(s)
  }

  // ---------------------------------------------------------------------
  // Which lines the page shows

  datatype Line =
    | Footer | Name | Owner | Type | InheritParent
    | Accessors | Builders | Containers | Managers
    | Greeting | Farewell | PvP | WorldName | Created | LastActive | Id
    | NorthCorners | SouthCorners

  /** The lines every page opens with. */
  const Heading: seq<Line> := [Footer, Name, Owner, Type]

  /** The rest of the page of a claim that is not the wilderness. */
  const ClaimSection: seq<Line> :=
    [Accessors, Builders, Containers, Managers,
     Greeting, Farewell, PvP, WorldName, Created, LastActive, Id, NorthCorners, SouthCorners, Footer]

  /** The rest of the wilderness page. */
  const WildernessSection: seq<Line> := [Greeting, Farewell, PvP, WorldName, Created, Id, Footer]

  function InfoLines(claim: Claim): (r: seq<Line>)
    ensures |r| >= 5 && r[0] == Footer && r[|r| - 1] == Footer
    ensures r[1] == Name && r[2] == Owner && r[3] == Type
    ensures InheritParent in r <==> claim.parent.Some?
  {
    if claim.parent.Some? then Heading + [InheritParent] + ClaimSection
    else if !claim.IsWildernessClaim() then Heading + ClaimSection
    else Heading + WildernessSection
  }

  /** Only a claim with a parent shows InheritParent; the trust lists, the
      last-active date and the corners are shown for every claim but the
      wilderness; every page starts and ends with a footer and shows the
      name, owner, type and id. */
  lemma InfoLinesBySection(claim: Claim)
    requires claim.WellFormed()
    ensures InheritParent in InfoLines(claim) <==> claim.parent.Some?
    ensures forall l :: l in {Accessors, Builders, Containers, Managers, LastActive, NorthCorners, SouthCorners} ==>
      (l in InfoLines(claim) <==> !claim.IsWildernessClaim())
    ensures forall l :: l in {Name, Owner, Type, Greeting, Farewell, PvP, WorldName, Created, Id} ==> l in InfoLines(claim)
    ensures InfoLines(claim)[0] == Footer && InfoLines(claim)[|InfoLines(claim)| - 1] == Footer
  {
  }

  /** A page for a claim with a parent is the top-level page with the
      InheritParent line inserted after Type. */
  lemma ParentPageAddsInheritLine(claim: Claim, parent: ParentRef)
    requires !claim.IsWildernessClaim()
    ensures var top := InfoLines(claim.(parent := None));
      InfoLines(claim.(parent := Some(parent))) == top[..4] + [InheritParent] + top[4..]
  {
    var top := InfoLines(claim.(parent := None));
    assert top[..4] == Heading && top[4..] == ClaimSection;
  }

  // ---------------------------------------------------------------------
  // execute

  /** What the page shows, line by line content the model keeps. */
  datatype Page = Page(
    claim: Claim,
    lines: seq<Line>,
    owner: OwnerShown,
    color: TypeColor,
    corners: Corners,
    accessors: Option<string>,
    builders: Option<string>,
    containers: Option<string>,
    managers: Option<string>)

  datatype InfoOutcome =
    | NoPlayerOrId        // "No valid player or claim id found."
    | NoClaim             // "No claim in your current location."
    | NoPermission        // "You do not have permission to view information in this claim."
    | Shown(page: Page)

  /** The page for a claim the player may view. */
  function PageOf(claim: Claim, nameOf: Uuid -> string): Page
  {
    Page(claim, InfoLines(claim), ShownOwner(claim), TypeColorOf(claim), CornersOf(claim),
      AclShown(JoinNames(claim.accessors, nameOf)), AclShown(JoinNames(claim.builders, nameOf)),
      AclShown(JoinNames(claim.containers, nameOf)), AclShown(JoinNames(claim.managers, nameOf)))
  }

  /** The claim the command looks at: the one at the player without an
      identifier, otherwise the first match. */
  function Target(ident: Option<string>, claimHere: Option<Claim>, worlds: seq<seq<Claim>>): Option<Claim>
  {
    if ident.None? then claimHere else FirstMatch(worlds, ident.value)
  }

  /** execute. `claimHere` is the claim at a player's location (subdivisions
      excluded), `worlds` the claims of every world. A source that is not a
      player and names a claim that exists makes the command dereference a
      missing player; that case is excluded by the precondition. */
  method Execute(src: CommandSource, ident: Option<string>, claimHere: Option<Claim>,
                 worlds: seq<seq<Claim>>, nameOf: Uuid -> string)
    returns (out: InfoOutcome)
    requires src.Console? && ident.Some? ==> FirstMatch(worlds, ident.value).None?
    ensures src.Console? && ident.None? ==> out == NoPlayerOrId
    ensures src.Player? || ident.Some? ==>
      var target := Target(ident, if src.Player? then claimHere else None, worlds);
      && (target.None? ==> out == NoClaim)
      && (target.Some? && !MayView(src.id, src.perms, target.value) ==> out == NoPermission)
      && (target.Some? && MayView(src.id, src.perms, target.value) ==> out == Shown(PageOf(target.value, nameOf)))
  {
    if src.Console? && ident.None? {
      return NoPlayerOrId;
    }
    var claim: Option<Claim>;
    if src.Player? && ident.None? {
      claim := claimHere;
    } else {
      claim := FindClaim(worlds, ident.value);
    }
    if claim.None? {
      return NoClaim;
    }
    var c := claim.value;
    if src.id != c.ownerId {
      if src.id !in c.containers && src.id !in c.builders && src.id !in c.managers
         && !src.HasPermission(ClaimInfoOthers) {
        return NoPermission;
      }
    }
    var accessors := AclNames(c.accessors, nameOf);
    var builders := AclNames(c.builders, nameOf);
    var containers := AclNames(c.containers, nameOf);
    var managers := AclNames(c.managers, nameOf);
    out := Shown(Page(c, InfoLines(c), ShownOwner(c), TypeColorOf(c), CornersOf(c),
      AclShown(accessors), AclShown(builders), AclShown(containers), AclShown(managers)));
  }
}
