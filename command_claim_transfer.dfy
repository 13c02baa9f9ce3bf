/** CommandClaimTransfer: hand the claim a player stands in to another user,
    after a chain of guards; the owner change happens in the world's claim
    registry and a successful transfer is written to the admin-activity log. */
module CommandClaimTransfer {
  import opened JavaLang
  import opened ClaimModel

  /** The messages the command sends, by message key. */
  datatype Message =
    | NotAPlayer               // the text of checkPlayer's CommandException
    | TransferClaimMissing
    | TransferClaimPermission
    | TransferTopLevel
    | TransferSuccess

  /** CommandResult.success() and CommandResult.empty(). */
  datatype CommandResult = Success | Empty

  /** The "user" argument. */
  datatype User = User(id: Uuid, name: string)

  /** An AdminActivity log entry: who transferred the claim at which lesser
      corner to whom. The text layout of the location is not modelled. */
  datatype LogEntry = TransferLog(actor: string, lesserCorner: Pos, newOwnerName: string)

  /** The registry's owner change, as a value: refused (None) when the claim
      has a parent, otherwise only that claim's owner is replaced. */
  function Transferred(claims: map<Uuid, Claim>, id: Uuid, newOwner: Uuid): (r: Option<map<Uuid, Claim>>)
    requires id in claims
    ensures r.None? <==> claims[id].parent.Some?
    ensures r.Some? ==> r.value.Keys == claims.Keys && r.value[id].ownerId == newOwner
  {
    if claims[id].parent.Some? then None
    else Some(claims[id := claims[id].(ownerId := newOwner)])
  }

  /** A claim with a parent is never transferred; a top-level claim always is,
      and afterwards it has the new owner and is otherwise unchanged, as is
      every other claim. */
  lemma TransferChangesOnlyTheOwner(claims: map<Uuid, Claim>, id: Uuid, newOwner: Uuid)
    requires id in claims
    ensures Transferred(claims, id, newOwner).None? <==> claims[id].parent.Some?
    ensures Transferred(claims, id, newOwner).Some? ==>
      var after := Transferred(claims, id, newOwner).value;
      && after.Keys == claims.Keys
      && after[id].ownerId == newOwner
      && after[id].(ownerId := claims[id].ownerId) == claims[id]
      && (forall k :: k in claims && k != id ==> after[k] == claims[k])
  {
  }

  /** Transferring again to the same owner changes nothing more, and a
      transfer leaves the claim transferable. */
  lemma TransferIsIdempotent(claims: map<Uuid, Claim>, id: Uuid, newOwner: Uuid)
    requires id in claims
    requires Transferred(claims, id, newOwner).Some?
    ensures Transferred(Transferred(claims, id, newOwner).value, id, newOwner) == Transferred(claims, id, newOwner)
  {
    var after := Transferred(claims, id, newOwner).value;
    assert after[id] == claims[id].(ownerId := newOwner);
    assert after[id := after[id].(ownerId := newOwner)] == after;
  }

  /** ClaimWorldManager: the claims of one world, by id. */
  class ClaimWorldManager {
    var claims: map<Uuid, Claim>

    constructor (initial: map<Uuid, Claim>)
      ensures claims == initial
    {
      claims := initial;
    }

    /** transferClaimOwner: throws NoTransferException (here `false`) for a
        claim with a parent; otherwise sets the owner and nothing else. */
    method TransferClaimOwner(id: Uuid, newOwner: Uuid) returns (transferred: bool)
      requires id in claims
      modifies this
      ensures transferred <==> old(claims)[id].parent.None?
      ensures Transferred(old(claims), id, newOwner) == if transferred then Some(claims) else None
      ensures !transferred ==> claims == old(claims)
    {
      if claims[id].parent.Some? {
        return false;
      }
      claims := claims[id := claims[id].(ownerId := newOwner)];
      return true;
    }
  }

  /** The admin-activity log, in the order entries were added. */
  class ActivityLog {
    var entries: seq<LogEntry>

    constructor ()
      ensures entries == []
    {
      entries := [];
    }

    method Add(e: LogEntry)
      modifies this
      ensures entries == old(entries) + [e]
    {
      entries := entries + [e];
    }
  }

  /** Where the guard chain stops, in the order the command checks. */
  datatype Stage = StopNotAPlayer | StopMissing | StopNoPermission | Attempt

  /** The guards: a player, a claim at the player that is not the
      wilderness, and the admin-claims permission for an admin claim. */
  function Guard(src: CommandSource, claim: Option<Claim>): (s: Stage)
    ensures s == StopNotAPlayer <==> src.Console?
    ensures s == StopMissing <==> src.Player? && (claim.None? || claim.value.IsWildernessClaim())
    ensures s == StopNoPermission <==>
      && src.Player? && claim.Some? && !claim.value.IsWildernessClaim()
      && claim.value.IsAdminClaim() && !src.HasPermission(AdminClaims)
    ensures s == Attempt <==>
      && src.Player? && claim.Some? && !claim.value.IsWildernessClaim()
      && (claim.value.IsAdminClaim() ==> src.HasPermission(AdminClaims))
  {
    if src.Console? then StopNotAPlayer
    else if claim.None? || claim.value.IsWildernessClaim() then StopMissing
    else if claim.value.IsAdminClaim() && !src.HasPermission(AdminClaims) then StopNoPermission
    else Attempt
  }

  /** The admin-claims permission matters only for admin claims: a basic
      claim or a subdivision of a basic claim reaches the transfer for any
      player. */
  lemma PermissionOnlyForAdminClaims(src: CommandSource, claim: Claim)
    requires src.Player? && !claim.IsWildernessClaim() && !claim.IsAdminClaim()
    ensures Guard(src, Some(claim)) == Attempt
  {
  }

  /** execute: `claimHere` is the id of the claim at the player's location,
      subdivisions included, None for no claim; `mgr` is the registry of that
      claim's world. */
  method Execute(src: CommandSource, claimHere: Option<Uuid>, target: User,
                 mgr: ClaimWorldManager, log: ActivityLog)
    returns (messages: seq<Message>, result: CommandResult)
    requires claimHere.Some? ==> claimHere.value in mgr.claims
    modifies mgr, log
    ensures var claim := if claimHere.Some? then Some(old(mgr.claims)[claimHere.value]) else None;
      match Guard(src, claim)
      case StopNotAPlayer =>
        messages == [NotAPlayer] && result == Success
        && mgr.claims == old(mgr.claims) && log.entries == old(log.entries)
      case StopMissing =>
        messages == [TransferClaimMissing] && result == Empty
        && mgr.claims == old(mgr.claims) && log.entries == old(log.entries)
      case StopNoPermission =>
        messages == [TransferClaimPermission] && result == Success
        && mgr.claims == old(mgr.claims) && log.entries == old(log.entries)
      case Attempt =>
        var id := claimHere.value;
        if old(mgr.claims)[id].parent.Some? then
          messages == [TransferTopLevel] && result == Empty
          && mgr.claims == old(mgr.claims) && log.entries == old(log.entries)
        else
          messages == [TransferSuccess] && result == Success
          && Transferred(old(mgr.claims), id, target.id) == Some(mgr.claims)
          && log.entries == old(log.entries) + [TransferLog(src.name, old(mgr.claims)[id].lesser, target.name)]
  {
    var claim := if claimHere.Some? then Some(mgr.claims[claimHere.value]) else None;
    var stage := Guard(src, claim);
    if stage == StopNotAPlayer {
      return [NotAPlayer], Success;
    }
    if stage == StopMissing {
      return [TransferClaimMissing], Empty;
    }
    if stage == StopNoPermission {
      return [TransferClaimPermission], Success;
    }
    var id := claimHere.value;
    var lesser := mgr.claims[id].lesser;
    var transferred := mgr.TransferClaimOwner(id, target.id);
    if !transferred {
      return [TransferTopLevel], Empty;
    }
    log.Add(TransferLog(src.name, lesser, target.name));
    return [TransferSuccess], Success;
  }
}
