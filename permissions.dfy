/** The two permission classes (programs/permissions.py): owner-or-admin on
    objects, and read-only access for unauthenticated callers. */
module Permissions {

  /** The caller of a request: an anonymous visitor or a user account. */
  datatype Actor = Anonymous | User(id: nat, isStaff: bool, isSuperuser: bool)

  datatype HttpMethod = Get | Head | Options | Post | Put | Patch | Delete

  predicate IsAuthenticated(actor: Actor) {
    actor.User?
  }

  /** Staff and superusers are the administrators. */
  predicate IsAdmin(actor: Actor) {
    actor.User? && (actor.isStaff || actor.isSuperuser)
  }

  /** The caller is the account that owns the object. */
  predicate Owns(actor: Actor, owner: nat) {
    actor.User? && actor.id == owner
  }

  /** DRF's SAFE_METHODS: GET, HEAD and OPTIONS. */
  predicate IsSafe(m: HttpMethod) {
    m.Get? || m.Head? || m.Options?
  }

  /** `IsOwnerOrAdmin.has_object_permission` for an object owned by `owner`. */
  function HasObjectPermission(actor: Actor, owner: nat): bool {
    if IsAdmin(actor) then true else Owns(actor, owner)
  }

  /** `IsAuthenticatedOrReadOnlyShared.has_permission`. */
  function HasPermission(actor: Actor, m: HttpMethod): bool {
    if IsAuthenticated(actor) then true
    else if IsSafe(m) then true
    else false
  }

  lemma AdminGranted(actor: Actor, owner: nat)
    requires IsAdmin(actor)
    ensures HasObjectPermission(actor, owner)
  {
  }

  lemma NonAdminGrantedIffOwner(actor: Actor, owner: nat)
    requires !IsAdmin(actor)
    ensures HasObjectPermission(actor, owner) <==> actor.User? && actor.id == owner
  {
  }

  lemma AnonymousNeverHasObjectPermission(owner: nat)
    ensures !HasObjectPermission(Anonymous, owner)
  {
  }

  lemma AuthenticatedAlwaysPasses(actor: Actor, m: HttpMethod)
    requires IsAuthenticated(actor)
    ensures HasPermission(actor, m)
  {
  }

  /** An anonymous caller may read and may never write. */
  lemma AnonymousReadOnly(m: HttpMethod)
    ensures HasPermission(Anonymous, m) <==> IsSafe(m)
  {
  }
}
