/** The behaviours the repository's tests describe (programs/tests/), and a
    few further scenarios of the code, stated as clients of the model: each
    method builds its own programs, and its postcondition is what the test
    asserts or, for the others, what the cited code does. */
module Scenarios {
  import opened Wrappers
  import opened Models
  import opened Permissions
  import opened Views
  import Serializers

  /** An instant on the test day, in seconds. */
  function At(hour: nat, minute: nat): int {
    hour * 3600 + minute * 60
  }

  /** Sharing an empty program fails; after one valid item it succeeds, and a
      second request returns the same token, reports "already shared" and
      keeps the first share instant. */
  method ShareGatingAndIdempotence(draws: seq<string>, t1: int, t2: int, t3: int)
    returns (first: Result<ShareReceipt, ApiError>, second: Result<ShareReceipt, ApiError>,
             third: Result<ShareReceipt, ApiError>)
    requires |draws| > 0 && forall k :: 0 <= k < |draws| ==> |draws[k]| == TokenLength
    ensures first == Failure(NotReady)
    ensures second == Success(ShareReceipt(draws[0], Some(t2), false))
    ensures third == Success(ShareReceipt(draws[0], Some(t2), true))
  {
    var alice := User(1, false, false);
    var program := new Program(10, 1);
    var store := [program];
    first := ShareProgram(store, 10, alice, t1, draws);
    var session := CreateItem(store, 10, alice, 100, At(9, 0), At(10, 0), Some(1));
    assert TokensOf(store) == {};
    second := ShareProgram(store, 10, alice, t2, draws);
    third := ShareProgram(store, 10, alice, t3, draws);
  }

  /** With A at 09:00-10:30, B at 10:00-11:00 is refused under `start_time`
      as a conflict with A (what the test asserts); beyond the test, C at
      10:30-11:30, back to back with A, is accepted and the program is then
      ready. */
  method ConflictAndBackToBack()
    returns (a: Result<Item, ApiError>, b: Result<Item, ApiError>, c: Result<Item, ApiError>,
             ready: bool)
    ensures a.Success? && a.value.position == 1
    ensures b == Failure(Invalid(Serializers.TimeConflict(a.value)))
    ensures c.Success? && c.value.position == 2
    ensures ready
  {
    var alice := User(1, false, false);
    var program := new Program(10, 1);
    var store := [program];
    a := CreateItem(store, 10, alice, 1, At(9, 0), At(10, 30), None);
    b := CreateItem(store, 10, alice, 2, At(10, 0), At(11, 0), None);
    c := CreateItem(store, 10, alice, 3, At(10, 30), At(11, 30), None);
    ready := program.IsReady();
  }

  /** An inverted range is refused under `end_time`, on creation and on
      update, and the items stay as they were. */
  method InvertedRangeRefused()
    returns (created: Result<Item, ApiError>, updated: Result<Item, ApiError>)
    ensures created == Failure(Invalid(Serializers.EndBeforeStart))
    ensures updated == Failure(Invalid(Serializers.EndBeforeStart))
  {
    var alice := User(1, false, false);
    var program := new Program(10, 1);
    var store := [program];
    created := CreateItem(store, 10, alice, 1, At(10, 0), At(9, 0), Some(1));
    var valid := CreateItem(store, 10, alice, 2, At(9, 0), At(10, 0), Some(1));
    updated := UpdateItem(store, 10, 2, alice, true, Some(At(11, 0)), Some(At(10, 0)), None);
  }

  /** A full update (PUT) that leaves out `end_time` is refused for the
      missing field, before any range or conflict check. */
  method FullUpdateNeedsBothInstants() returns (updated: Result<Item, ApiError>)
    ensures updated == Failure(Required({EndTime}))
  {
    var alice := User(1, false, false);
    var program := new Program(10, 1);
    var store := [program];
    var valid := CreateItem(store, 10, alice, 2, At(9, 0), At(10, 0), Some(1));
    assert program.items == [Item(2, At(9, 0), At(10, 0), 1)];
    assert ProgramAndItem(store, 10, 2, alice).Some?;
    assert Missing(Some(At(11, 0)), None) == {EndTime};
    updated := UpdateItem(store, 10, 2, alice, false, Some(At(11, 0)), None, None);
  }

  /** Another user asking for Bob's program by identifier gets "not found". */
  method PrivateById() returns (byId: Result<Program, ApiError>)
    ensures byId == Failure(NotFound)
  {
    var program := new Program(20, 2);
    byId := RetrieveProgram([program], 20, User(1, false, false));
  }

  /** An anonymous visitor holding a shared program's token can read it, and
      a token no program holds is "not found". */
  method PublicByToken(token: string)
    returns (byToken: Result<Program, ApiError>, byBadToken: Result<Program, ApiError>)
    requires |token| == TokenLength
    ensures byToken.Success? && byToken.value.id == 20 && byToken.value.owner == 2
    ensures byToken.Success? && |byToken.value.items| == 1
    ensures byBadToken == Failure(NotFound)
  {
    var bob := User(2, false, false);
    var program := new Program(20, 2);
    var store := [program];
    var item := CreateItem(store, 20, bob, 1, At(9, 0), At(10, 0), Some(1));
    assert TokensOf(store) == {};
    var shared := ShareProgram(store, 20, bob, 0, [token]);
    byToken := SharedProgram(store, Anonymous, token);
    byBadToken := SharedProgram(store, Anonymous, "invalid-token-xyz");
  }

  /** The dashboard of a user who owns two of three programs shows those
      two and counts two. */
  method OwnDashboard() returns (own: Result<DashboardData, ApiError>)
    ensures own.Success? && own.value.totalCount == 2
    ensures own.Success? && |own.value.programs| == 2
  {
    var p1 := new Program(1, 1);
    var p2 := new Program(2, 1);
    var p3 := new Program(3, 2);
    var store := [p1, p2, p3];
    own := Dashboard(store, User(1, false, false));
    var shown := own.value.programs;
    assert multiset(shown)[store[0]] == 1 && multiset(shown)[store[1]] == 1;
    assert multiset(shown) == multiset{p1, p2} by {
      forall p | p in multiset(shown) ensures p == p1 || p == p2 {
        assert p in store;
        assert multiset(shown)[store[2]] == 0;
      }
    }
    assert |shown| == |multiset(shown)|;
  }

  /** Beyond the tests: an administrator's dashboard shows every program. */
  method AdminDashboard() returns (admin: Result<DashboardData, ApiError>)
    ensures admin.Success? && admin.value.totalCount == 3
  {
    var p1 := new Program(1, 1);
    var p2 := new Program(2, 1);
    var p3 := new Program(3, 2);
    admin := Dashboard([p1, p2, p3], User(9, true, false));
  }

  /** Beyond the tests: a shared program edited into an overlap outside the
      validated views (for instance through the admin form, which checks
      ranges only) keeps its token and share instant, and reads as shared but
      unready. */
  method EditAfterShare(draws: seq<string>, now: int)
    returns (token: Option<string>, flag: bool)
    requires |draws| > 0 && forall k :: 0 <= k < |draws| ==> |draws[k]| == TokenLength
    ensures token == Some(draws[0]) && flag
  {
    var alice := User(1, false, false);
    var program := new Program(10, 1);
    var store := [program];
    var a := CreateItem(store, 10, alice, 1, At(9, 0), At(10, 0), None);
    assert TokensOf(store) == {};
    var shared := ShareProgram(store, 10, alice, now, draws);
    program.items := program.items + [Item(2, At(9, 30), At(10, 30), 2)];
    ConflictBlocksReady(program.items, 0, 1);
    token := program.shareToken;
    flag := program.SharedButUnready();
  }
}
