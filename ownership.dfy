/**
 * `canActOnOwnedResource`: who may update or delete a resource that has an
 * owner, given the caller's permission strings `domain:action`.
 */
module Ownership {

  datatype OwnedAction = Update | Delete

  function ActionName(a: OwnedAction): string {
    match a
    case Update => "update"
    case Delete => "delete"
  }

  /** The permission string `${domain}:${name}`. */
  function Permission(domain: string, name: string): string {
    domain + ":" + name
  }

  /** Moderators of the domain may always act; otherwise only the owner holding the action's permission. */
  function CanActOnOwnedResource(userId: string, permissions: seq<string>, ownerId: string, domain: string,
                                 action: OwnedAction): (r: bool)
    ensures userId != ownerId ==> (r <==> Permission(domain, "moderate") in permissions)
    ensures userId == ownerId ==>
      (r <==> Permission(domain, "moderate") in permissions || Permission(domain, ActionName(action)) in permissions)
  {
    if Permission(domain, "moderate") in permissions then true
    else Permission(domain, ActionName(action)) in permissions && userId == ownerId
  }

  /** `domain:moderate` grants the action whoever owns the resource. */
  lemma ModerateGrants(userId: string, permissions: seq<string>, ownerId: string, domain: string, action: OwnedAction)
    requires Permission(domain, "moderate") in permissions
    ensures CanActOnOwnedResource(userId, permissions, ownerId, domain, action)
  {
  }

  /** The owner holding `domain:action` is granted. */
  lemma OwnerWithPermissionGranted(userId: string, permissions: seq<string>, domain: string, action: OwnedAction)
    requires Permission(domain, ActionName(action)) in permissions
    ensures CanActOnOwnedResource(userId, permissions, userId, domain, action)
  {
  }

  /** A non-owner without `domain:moderate` is denied whatever else they hold. */
  lemma NonOwnerDenied(userId: string, permissions: seq<string>, ownerId: string, domain: string, action: OwnedAction)
    requires userId != ownerId && Permission(domain, "moderate") !in permissions
    ensures !CanActOnOwnedResource(userId, permissions, ownerId, domain, action)
  {
  }

  /** Exactly: granted iff moderator, or owner with the action's own permission. */
  lemma CanActCharacterization(userId: string, permissions: seq<string>, ownerId: string, domain: string,
                               action: OwnedAction)
    ensures CanActOnOwnedResource(userId, permissions, ownerId, domain, action) <==>
      (exists p | p in permissions :: p == Permission(domain, "moderate")) ||
      (userId == ownerId && exists p | p in permissions :: p == Permission(domain, ActionName(action)))
  {
  }

  /** The permission names of one domain are pairwise distinct strings. */
  lemma {:induction false} PermissionsDistinct(domain: string, a: string, b: string)
    requires a != b
    ensures Permission(domain, a) != Permission(domain, b)
  {
    var pa := Permission(domain, a);
    var pb := Permission(domain, b);
    if |a| == |b| {
      var k :| 0 <= k < |a| && a[k] != b[k];
      assert pa[|domain| + 1 + k] == a[k] && pb[|domain| + 1 + k] == b[k];
    } else {
      assert |pa| != |pb|;
    }
  }

  /** `domain:update` alone does not authorise `delete`, and `domain:delete` alone does not authorise `update`. */
  lemma UpdateDoesNotGrantDelete(userId: string, domain: string)
    ensures !CanActOnOwnedResource(userId, [Permission(domain, "update")], userId, domain, Delete)
    ensures !CanActOnOwnedResource(userId, [Permission(domain, "delete")], userId, domain, Update)
  {
    PermissionsDistinct(domain, "update", "delete");
    PermissionsDistinct(domain, "update", "moderate");
    PermissionsDistinct(domain, "delete", "moderate");
  }

  /** Nobody is granted anything with an empty permission list. */
  lemma EmptyPermissionsDenied(userId: string, ownerId: string, domain: string, action: OwnedAction)
    ensures !CanActOnOwnedResource(userId, [], ownerId, domain, action)
  {
  }
}
