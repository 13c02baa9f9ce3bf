/** The values the four commands share: Sponge's Tristate, the permission
    nodes they consult, the command source, permission contexts and the
    parts of a claim they read. Claim.java itself is not part of this model;
    a claim is the record of what its accessors return. */
module ClaimModel {
  import opened JavaLang

  /** org.spongepowered.api.util.Tristate. */
  datatype Tristate = TRUE | FALSE | UNDEFINED

  /** Tristate.fromBoolean: only an absent key is UNDEFINED. */
  function FromBoolean(b: bool): (t: Tristate)
    ensures t != UNDEFINED
  {
    if b then TRUE else FALSE
  }

  /** The permission nodes of GPPermissions the commands check. */
  datatype Permission =
    | ListClaimFlags        // COMMAND_LIST_CLAIM_FLAGS
    | ManageFlagDefaults    // MANAGE_FLAG_DEFAULTS
    | ManageFlagOverrides   // MANAGE_FLAG_OVERRIDES
    | AdminClaims           // COMMAND_ADMIN_CLAIMS
    | ClaimInfoOthers       // COMMAND_CLAIM_INFO_OTHERS

  type Uuid = string

  /** A CommandSource: a player, or anything else (console, command block). */
  datatype CommandSource =
    | Player(id: Uuid, name: string, perms: set<Permission>)
    | Console(perms: set<Permission>)
  {
    predicate HasPermission(p: Permission) { p in perms }
  }

  /** A block position. */
  datatype Pos = Pos(x: int, y: int, z: int)

  /** Claim.Type. */
  datatype ClaimType = ADMIN | BASIC | SUBDIVISION | WILDERNESS

  /** What a claim knows of its parent: the parent's id and owner. */
  datatype ParentRef = ParentRef(id: Uuid, ownerId: Uuid)

  datatype Claim = Claim(
    id: Uuid,                 // claim.id.toString()
    name: Option<string>,     // plain text of the claim name, None when unset
    kind: ClaimType,          // claim.type
    adminClaim: bool,         // claim.isAdminClaim()
    ownerId: Uuid,            // claim.getOwnerUniqueId()
    parent: Option<ParentRef>,
    lesser: Pos,              // lesserBoundaryCorner
    greater: Pos,             // greaterBoundaryCorner
    accessors: seq<Uuid>,
    builders: seq<Uuid>,
    containers: seq<Uuid>,
    managers: seq<Uuid>,
    inheritParent: bool)
  {
    predicate IsAdminClaim() { adminClaim }
    predicate IsBasicClaim() { kind == BASIC }
    predicate IsSubdivision() { kind == SUBDIVISION }
    predicate IsWildernessClaim() { kind == WILDERNESS }

    /** The claim invariants the commands rely on: an ADMIN claim answers
        isAdminClaim(), a basic claim and the wilderness do not (a subdivision
        answers as its admin parent does), a subdivision has a parent, the
        wilderness has none, and the corners are ordered. */
    predicate WellFormed()
    {
      && (kind == ADMIN ==> adminClaim)
      && (kind == BASIC || kind == WILDERNESS ==> !adminClaim)
      && (kind == SUBDIVISION ==> parent.Some?)
      && (kind == WILDERNESS ==> parent.None?)
      && lesser.x <= greater.x && lesser.y <= greater.y && lesser.z <= greater.z
    }
  }

  /** A permission context (Sponge Context): the claim-type contexts the
      plugin defines, a world, a claim's own context, or a custom context
      registered under a name. */
  datatype Context =
    | AdminDefault | AdminOverride
    | BasicDefault | BasicOverride
    | WildernessDefault
    | World(worldId: string)
    | ClaimContext(claimId: Uuid)
    | Custom(key: string, value: string)

  /** A subject's permissions, by the exact context set they were set under. */
  type Store = map<set<Context>, map<string, bool>>

  /** SubjectData.getPermissions(contexts): the keys set under exactly these
      contexts; a key that is absent is UNDEFINED. */
  function GetPermissions(store: Store, contexts: set<Context>): map<string, bool>
  {
    if contexts in store then store[contexts] else map[]
  }
}
