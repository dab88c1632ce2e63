/** The request handlers' decisions (programs/views.py): lookups scoped to
    owner or admin, the item listing, the dashboard, the public lookup by
    token, the share state machine and item creation and update. A store is
    the sequence of all programs; its order is the query order. */
module Views {
  import opened Wrappers
  import Ordering
  import opened Models
  import opened Permissions
  import Serializers

  /** The two instants of an item, as request fields. */
  datatype Field = StartTime | EndTime

  /** The error responses the handlers produce. `Required` lists the
      instants a full (non-partial) update left out. */
  datatype ApiError =
    | Unauthenticated
    | NotFound
    | Required(fields: set<Field>)
    | Invalid(reason: Serializers.ValidationError)
    | NotReady
    | TokenSpaceExhausted

  /** What a share request reports: the token, when it was shared and whether
      it had been shared before this request. */
  datatype ShareReceipt = ShareReceipt(token: string, sharedAt: Option<int>, alreadyShared: bool)

  datatype DashboardData = DashboardData(programs: seq<Program>, totalCount: nat)

  /** Program identifiers are primary keys. */
  predicate UniqueIds(store: seq<Program>) {
    forall i, j :: 0 <= i < j < |store| ==> store[i].id != store[j].id
  }

  /** The `unique=True` constraint on `share_token`. */
  predicate DistinctTokens(store: seq<Program>)
    reads store
  {
    forall i, j :: 0 <= i < j < |store| && store[i].shareToken.Some? ==>
      store[i].shareToken != store[j].shareToken
  }

  /** Every token a program of the store holds. */
  function TokensOf(store: seq<Program>): set<string>
    reads store
  {
    set i | 0 <= i < |store| && store[i].shareToken.Some? :: store[i].shareToken.value
  }

  // ---------------------------------------------------------------------
  // Scoped lookups
  // ---------------------------------------------------------------------

  /** The handlers' scope: every program for staff or a superuser, the
      user's own programs otherwise. */
  predicate InScope(user: Actor, p: Program)
    requires user.User?
  {
    user.isStaff || user.isSuperuser || p.owner == user.id
  }

  /** The scope of the handlers is exactly the object permission, so a
      program found through it always passes `check_object_permissions`. */
  lemma ScopeIsObjectPermission(user: Actor, p: Program)
    requires user.User?
    ensures InScope(user, p) <==> HasObjectPermission(user, p.owner)
  {
  }

  /** `get_object_or_404(Program, pk=pk)` for an admin and
      `get_object_or_404(Program, pk=pk, owner=user)` otherwise. */
  function ScopedProgram(store: seq<Program>, pk: nat, user: Actor): (r: Option<Program>)
    requires user.User?
    ensures r.Some? ==> r.value in store && r.value.id == pk && InScope(user, r.value)
    ensures r.None? <==> forall p :: p in store && p.id == pk ==> !InScope(user, p)
  {
    if store == [] then None
    else if store[0].id == pk && InScope(user, store[0]) then Some(store[0])
    else
      assert forall p :: p in store ==> p == store[0] || p in store[1..];
      ScopedProgram(store[1..], pk, user)
  }

  /** With unique identifiers, the lookup finds program `p` exactly when it
      is in the user's scope; otherwise the answer is "not found". */
  lemma {:induction false} ScopedProgramFinds(store: seq<Program>, p: Program, user: Actor)
    requires user.User? && UniqueIds(store) && p in store
    ensures ScopedProgram(store, p.id, user) == if InScope(user, p) then Some(p) else None
  {
    if store[0] != p {
      assert store[0].id != p.id by {
        var k :| 0 <= k < |store| && store[k] == p;
      }
      assert UniqueIds(store[1..]) by {
        forall i, j | 0 <= i < j < |store[1..]| ensures store[1..][i].id != store[1..][j].id {
          assert store[1..][i] == store[i + 1] && store[1..][j] == store[j + 1];
        }
      }
      ScopedProgramFinds(store[1..], p, user);
    }
  }

  /** `ProgramDetailView` (get, put, patch, delete): authentication, the
      scoped lookup and the object-permission check. */
  function RetrieveProgram(store: seq<Program>, pk: nat, actor: Actor): (r: Result<Program, ApiError>)
    ensures !IsAuthenticated(actor) ==> r == Failure(Unauthenticated)
    ensures r.Success? ==> r.value in store && r.value.id == pk && HasObjectPermission(actor, r.value.owner)
    ensures r.Failure? ==> r.error == Unauthenticated || r.error == NotFound
    ensures IsAuthenticated(actor) ==>
      (r.Failure? <==> forall p :: p in store && p.id == pk ==> !HasObjectPermission(actor, p.owner)) &&
      (r.Failure? ==> r.error == NotFound)
    ensures IsAuthenticated(actor) && UniqueIds(store) ==>
      forall p :: p in store && p.id == pk ==>
        r == if HasObjectPermission(actor, p.owner) then Success(p) else Failure(NotFound)
  {
    if !IsAuthenticated(actor) then Failure(Unauthenticated)
    else
      forall p | p in store && p.id == pk && UniqueIds(store) {
        ScopedProgramFinds(store, p, actor);
      }
      match ScopedProgram(store, pk, actor)
      case None => Failure(NotFound)
      case Some(p) =>
        // check_object_permissions never refuses a program found in scope
        assert HasObjectPermission(actor, p.owner);
        Success(p)
  }

  /** The index of the first item whose identifier is `itemPk`. */
  function FindItem(items: seq<Item>, itemPk: nat): (r: Option<nat>)
    ensures r.Some? ==> r.value < |items| && items[r.value].id == itemPk
    ensures r.Some? ==> forall j :: 0 <= j < r.value ==> items[j].id != itemPk
    ensures r.None? <==> forall j :: 0 <= j < |items| ==> items[j].id != itemPk
  {
    if items == [] then None
    else if items[0].id == itemPk then Some(0)
    else
      match FindItem(items[1..], itemPk)
      case None => None
      case Some(k) => Some(k + 1)
  }

  /** `get_program_and_item`: the scoped program, then the item with that
      identifier among that program's own items. */
  function ProgramAndItem(store: seq<Program>, programPk: nat, itemPk: nat, user: Actor)
    : (r: Option<(Program, nat)>)
    requires user.User?
    reads store
    ensures r.Some? ==>
      ScopedProgram(store, programPk, user) == Some(r.value.0) &&
      r.value.1 < |r.value.0.items| && r.value.0.items[r.value.1].id == itemPk
    ensures r.None? <==>
      ScopedProgram(store, programPk, user).None? ||
      forall j :: 0 <= j < |ScopedProgram(store, programPk, user).value.items| ==>
        ScopedProgram(store, programPk, user).value.items[j].id != itemPk
  {
    match ScopedProgram(store, programPk, user)
    case None => None
    case Some(p) =>
      match FindItem(p.items, itemPk)
      case None => None
      case Some(k) => Some((p, k))
  }

  /** `ProgramItemView.get`: the items of a program in scope, by position. */
  function ListItems(store: seq<Program>, programPk: nat, actor: Actor): (r: Result<seq<Item>, ApiError>)
    reads store
    ensures !IsAuthenticated(actor) ==> r == Failure(Unauthenticated)
    ensures IsAuthenticated(actor) ==>
      match ScopedProgram(store, programPk, actor)
      case None => r == Failure(NotFound)
      case Some(p) =>
        r.Success? && multiset(r.value) == multiset(p.items) &&
        Ordering.SortedBy(r.value, PositionKey)
  {
    if !IsAuthenticated(actor) then Failure(Unauthenticated)
    else
      match ScopedProgram(store, programPk, actor)
      case None => Failure(NotFound)
      case Some(p) => Success(Ordering.SortBy(p.items, PositionKey))
  }

  // ---------------------------------------------------------------------
  // Listings
  // ---------------------------------------------------------------------

  /** The programs of the store in the user's scope, in store order. */
  function Visible(store: seq<Program>, user: Actor): (r: seq<Program>)
    requires user.User?
    ensures forall p :: p in r ==> p in store && InScope(user, p)
    ensures forall i :: 0 <= i < |store| && InScope(user, store[i]) ==> store[i] in r
    ensures |r| <= |store|
    ensures forall i :: 0 <= i < |store| ==>
      multiset(r)[store[i]] == if InScope(user, store[i]) then multiset(store)[store[i]] else 0
    ensures IsAdmin(user) ==> r == store
  {
    if store == [] then []
    else
      assert forall p :: p in store ==> p == store[0] || p in store[1..];
      assert store == [store[0]] + store[1..];
      if InScope(user, store[0]) then [store[0]] + Visible(store[1..], user)
      else Visible(store[1..], user)
  }

  /** `ProgramView.get`: all programs for an admin, the user's own otherwise. */
  function ListPrograms(store: seq<Program>, actor: Actor): (r: Result<seq<Program>, ApiError>)
    ensures !IsAuthenticated(actor) ==> r == Failure(Unauthenticated)
    ensures IsAuthenticated(actor) ==>
      r.Success? &&
      (forall p :: p in r.value ==> p in store && HasObjectPermission(actor, p.owner)) &&
      (forall i :: 0 <= i < |store| && HasObjectPermission(actor, store[i].owner) ==> store[i] in r.value) &&
      (forall i :: 0 <= i < |store| ==>
         multiset(r.value)[store[i]] ==
           if HasObjectPermission(actor, store[i].owner) then multiset(store)[store[i]] else 0)
  {
    if !IsAuthenticated(actor) then Failure(Unauthenticated)
    else Success(Visible(store, actor))
  }

  /** `DashboardView.get`: the same programs, with their number. */
  function Dashboard(store: seq<Program>, actor: Actor): (r: Result<DashboardData, ApiError>)
    ensures !IsAuthenticated(actor) ==> r == Failure(Unauthenticated)
    ensures IsAuthenticated(actor) ==>
      r.Success? && r.value.totalCount == |r.value.programs| &&
      (forall p :: p in r.value.programs ==> p in store && HasObjectPermission(actor, p.owner)) &&
      (forall i :: 0 <= i < |store| && HasObjectPermission(actor, store[i].owner) ==>
         store[i] in r.value.programs) &&
      (forall i :: 0 <= i < |store| ==>
         multiset(r.value.programs)[store[i]] ==
           if HasObjectPermission(actor, store[i].owner) then multiset(store)[store[i]] else 0) &&
      (IsAdmin(actor) ==> r.value.programs == store)
  {
    if !IsAuthenticated(actor) then Failure(Unauthenticated)
    else
      var programs := Visible(store, actor);
      Success(DashboardData(programs, |programs|))
  }

  // ---------------------------------------------------------------------
  // Public access by token
  // ---------------------------------------------------------------------

  /** `get_object_or_404(Program, share_token=token)`. */
  function FindByToken(store: seq<Program>, token: string): (r: Option<Program>)
    reads store
    ensures r.Some? ==> r.value in store && r.value.shareToken == Some(token)
    ensures r.None? <==> forall p :: p in store ==> p.shareToken != Some(token)
  {
    if store == [] then None
    else if store[0].shareToken == Some(token) then Some(store[0])
    else
      assert forall p :: p in store ==> p == store[0] || p in store[1..];
      FindByToken(store[1..], token)
  }

  /** With unique tokens, the token names one program and the lookup finds it. */
  lemma {:induction false} FindByTokenFinds(store: seq<Program>, k: nat)
    requires k < |store| && DistinctTokens(store) && store[k].shareToken.Some?
    ensures FindByToken(store, store[k].shareToken.value) == Some(store[k])
  {
    if k > 0 {
      assert store[0].shareToken != store[k].shareToken;
      assert DistinctTokens(store[1..]) by {
        forall i, j | 0 <= i < j < |store[1..]| && store[1..][i].shareToken.Some?
          ensures store[1..][i].shareToken != store[1..][j].shareToken
        {
          assert store[1..][i] == store[i + 1] && store[1..][j] == store[j + 1];
        }
      }
      assert store[1..][k - 1] == store[k];
      FindByTokenFinds(store[1..], k - 1);
    }
  }

  /** `SharedProgramView.get`: anyone, signed in or not, may read the program
      that holds the token; readiness is not consulted. */
  function SharedProgram(store: seq<Program>, actor: Actor, token: string): (r: Result<Program, ApiError>)
    reads store
    ensures r.Success? ==> r.value in store && r.value.shareToken == Some(token)
    ensures r.Failure? <==> forall p :: p in store ==> p.shareToken != Some(token)
    ensures r.Failure? ==> r.error == NotFound
  {
    // the view-level permission always admits a read
    assert HasPermission(actor, Get);
    match FindByToken(store, token)
    case None => Failure(NotFound)
    case Some(p) => Success(p)
  }

  // ---------------------------------------------------------------------
  // Sharing
  // ---------------------------------------------------------------------

  /** `ProgramShareView.post`. A program whose token is truthy is reported as
      already shared and left alone; otherwise it must be ready, receives a
      fresh token and the share instant `now`. `draws` are the successive
      outputs of the random token generator. */
  method ShareProgram(store: seq<Program>, pk: nat, actor: Actor, now: int, draws: seq<string>)
    returns (r: Result<ShareReceipt, ApiError>)
    requires forall k :: 0 <= k < |draws| ==> |draws[k]| == TokenLength
    modifies store
    ensures forall q :: q in store ==> q.items == old(q.items)
    ensures !IsAuthenticated(actor) ==> r == Failure(Unauthenticated) && unchanged(store)
    ensures IsAuthenticated(actor) && ScopedProgram(store, pk, actor).None? ==>
      r == Failure(NotFound) && unchanged(store)
    ensures IsAuthenticated(actor) && ScopedProgram(store, pk, actor).Some? ==>
      var p := ScopedProgram(store, pk, actor).value;
      && (forall q :: q in store && q != p ==> unchanged(q))
      && (Truthy(old(p.shareToken)) ==>
            r == Success(ShareReceipt(old(p.shareToken).value, old(p.sharedAt), true)) && unchanged(p))
      && (!Truthy(old(p.shareToken)) && !Ready(old(p.items)) ==>
            r == Failure(NotReady) && unchanged(p))
      && (!Truthy(old(p.shareToken)) && Ready(old(p.items)) ==>
            (r.Failure? <==> FirstFreshToken(draws, old(TokensOf(store))).None?) &&
            (r.Failure? ==> r == Failure(TokenSpaceExhausted) && unchanged(p)) &&
            (r.Success? ==>
               r.value.token == draws[FirstFreshToken(draws, old(TokensOf(store))).value] &&
               r.value.token !in old(TokensOf(store)) &&
               r.value == ShareReceipt(r.value.token, Some(now), false) &&
               p.shareToken == Some(r.value.token) && p.sharedAt == Some(now) &&
               Truthy(p.shareToken) && Serializers.IsShared(p)))
    ensures UniqueIds(store) && old(DistinctTokens(store)) ==> DistinctTokens(store)
  {
    if !IsAuthenticated(actor) {
      return Failure(Unauthenticated);
    }
    var found := ScopedProgram(store, pk, actor);
    if found.None? {
      return Failure(NotFound);
    }
    var p := found.value;
    // check_object_permissions never refuses a program found in scope
    assert HasObjectPermission(actor, p.owner);
    if Truthy(p.shareToken) {
      return Success(ShareReceipt(p.shareToken.value, p.sharedAt, true));
    }
    var ready := p.IsReady();
    if !ready {
      return Failure(NotReady);
    }
    ghost var taken := TokensOf(store);
    ghost var before := DistinctTokens(store);
    var exhausted := p.GenerateShareToken(TokensOf(store), draws);
    if exhausted {
      return Failure(TokenSpaceExhausted);
    }
    p.sharedAt := Some(now);
    r := Success(ShareReceipt(p.shareToken.value, p.sharedAt, false));
    if UniqueIds(store) && before {
      forall i, j | 0 <= i < j < |store| && store[i].shareToken.Some?
        ensures store[i].shareToken != store[j].shareToken
      {
        assert store[i] != store[j];
        if store[i] == p {
          assert store[j].shareToken == old(store[j].shareToken);
          assert old(store[j].shareToken).Some? ==> old(store[j].shareToken).value in taken;
        } else if store[j] == p {
          assert store[i].shareToken == old(store[i].shareToken);
          assert old(store[i].shareToken).value in taken;
        }
      }
    }
  }

  // ---------------------------------------------------------------------
  // Item creation and update
  // ---------------------------------------------------------------------

  /** `ProgramItemView.post`: validate against every item of the program,
      then save, assigning a position when none is given. */
  method CreateItem(store: seq<Program>, programPk: nat, actor: Actor, itemId: nat,
                    startTime: int, endTime: int, position: Option<nat>)
    returns (r: Result<Item, ApiError>)
    modifies store
    ensures forall q :: q in store ==> q.shareToken == old(q.shareToken) && q.sharedAt == old(q.sharedAt)
    ensures !IsAuthenticated(actor) ==> r == Failure(Unauthenticated) && unchanged(store)
    ensures IsAuthenticated(actor) && ScopedProgram(store, programPk, actor).None? ==>
      r == Failure(NotFound) && unchanged(store)
    ensures IsAuthenticated(actor) && ScopedProgram(store, programPk, actor).Some? ==>
      var p := ScopedProgram(store, programPk, actor).value;
      && (forall q :: q in store && q != p ==> unchanged(q))
      && (endTime <= startTime ==> r == Failure(Invalid(Serializers.EndBeforeStart)))
      && (r.Success? <==>
            endTime > startTime &&
            forall x :: x in old(p.items) ==>
              !Serializers.CheckConflict(startTime, endTime, x.startTime, x.endTime))
      && (r.Failure? ==> r.error.Invalid? && p.items == old(p.items))
      && (r.Failure? && endTime > startTime ==>
            r.error.reason.TimeConflict? && r.error.reason.sibling in old(p.items) &&
            Serializers.CheckConflict(startTime, endTime,
                                      r.error.reason.sibling.startTime, r.error.reason.sibling.endTime))
      && (r.Success? ==>
            r.value == Item(itemId, startTime, endTime,
                            if position.Some? then position.value else NextPosition(old(p.items))) &&
            p.items == old(p.items) + [r.value])
      && (r.Success? && AllValid(old(p.items)) && PairwiseFree(old(p.items)) ==> Ready(p.items))
  {
    if !IsAuthenticated(actor) {
      return Failure(Unauthenticated);
    }
    var found := ScopedProgram(store, programPk, actor);
    if found.None? {
      return Failure(NotFound);
    }
    var p := found.value;
    var outcome := Serializers.Validate(startTime, endTime, Some(p.items), None);
    if outcome.Fail? {
      return Failure(Invalid(outcome.error));
    }
    ghost var before := p.items;
    var item := p.SaveNewItem(itemId, startTime, endTime, position);
    forall k | 0 <= k < |before| ensures !Conflicts(item, before[k]) {
      assert before[k] in before;
    }
    if PairwiseFree(before) {
      AppendKeepsPairwiseFree(before, item);
    }
    return Success(item);
  }

  /** The instants a request leaves out. */
  function Missing(startTime: Option<int>, endTime: Option<int>): (fields: set<Field>)
    ensures StartTime in fields <==> startTime.None?
    ensures EndTime in fields <==> endTime.None?
  {
    (if startTime.None? then {StartTime} else {}) + (if endTime.None? then {EndTime} else {})
  }

  /** `ProgramItemDetailView.put` (`partial` false) and `.patch` (`partial`
      true): validate the new range against the other items of the program,
      then store it. A full update must carry both instants. In a partial
      one, an instant the request omits is the one already stored (see
      Findings in README.md: the source validates only the instants the
      request carries). An omitted position is the stored one. */
  method UpdateItem(store: seq<Program>, programPk: nat, itemPk: nat, actor: Actor, partial: bool,
                    startTime: Option<int>, endTime: Option<int>, position: Option<nat>)
    returns (r: Result<Item, ApiError>)
    modifies store
    ensures forall q :: q in store ==> q.shareToken == old(q.shareToken) && q.sharedAt == old(q.sharedAt)
    ensures !IsAuthenticated(actor) ==> r == Failure(Unauthenticated) && unchanged(store)
    ensures IsAuthenticated(actor) && old(ProgramAndItem(store, programPk, itemPk, actor)).None? ==>
      r == Failure(NotFound) && unchanged(store)
    ensures IsAuthenticated(actor) && old(ProgramAndItem(store, programPk, itemPk, actor)).Some? &&
            !partial && (startTime.None? || endTime.None?) ==>
      r == Failure(Required(Missing(startTime, endTime))) && unchanged(store)
    ensures IsAuthenticated(actor) && old(ProgramAndItem(store, programPk, itemPk, actor)).Some? &&
            (partial || (startTime.Some? && endTime.Some?)) ==>
      var found := old(ProgramAndItem(store, programPk, itemPk, actor)).value;
      var p, k := found.0, found.1;
      var current := old(p.items)[k];
      var s, e := startTime.GetOr(current.startTime), endTime.GetOr(current.endTime);
      && (forall q :: q in store && q != p ==> unchanged(q))
      && (e <= s ==> r == Failure(Invalid(Serializers.EndBeforeStart)))
      && (r.Success? <==>
            e > s &&
            forall x :: x in old(p.items) && x.id != itemPk ==>
              !Serializers.CheckConflict(s, e, x.startTime, x.endTime))
      && (r.Failure? ==> r.error.Invalid? && p.items == old(p.items))
      && (r.Failure? && e > s ==>
            r.error.reason.TimeConflict? && r.error.reason.sibling in old(p.items) &&
            r.error.reason.sibling.id != itemPk &&
            Serializers.CheckConflict(s, e, r.error.reason.sibling.startTime, r.error.reason.sibling.endTime))
      && (r.Success? ==>
            r.value == Item(itemPk, s, e, position.GetOr(current.position)) &&
            p.items == old(p.items)[k := r.value])
      && (r.Success? && UniqueItemIds(old(p.items)) && AllValid(old(p.items)) &&
          PairwiseFree(old(p.items))
          ==> Ready(p.items))
  {
    if !IsAuthenticated(actor) {
      return Failure(Unauthenticated);
    }
    var found := ProgramAndItem(store, programPk, itemPk, actor);
    if found.None? {
      return Failure(NotFound);
    }
    if !partial && (startTime.None? || endTime.None?) {
      return Failure(Required(Missing(startTime, endTime)));
    }
    var p, k := found.value.0, found.value.1;
    var current := p.items[k];
    var s, e := startTime.GetOr(current.startTime), endTime.GetOr(current.endTime);
    var outcome := Serializers.Validate(s, e, Some(p.items), Some(itemPk));
    if outcome.Fail? {
      return Failure(Invalid(outcome.error));
    }
    ghost var before := p.items;
    var updated := Item(itemPk, s, e, position.GetOr(current.position));
    p.items := p.items[k := updated];
    if UniqueItemIds(before) && PairwiseFree(before) {
      forall j | 0 <= j < |before| && j != k ensures !Conflicts(updated, before[j]) {
        assert before[j] in before && before[j].id != itemPk;
      }
      ReplaceKeepsPairwiseFree(before, k, updated);
    }
    return Success(updated);
  }
}
