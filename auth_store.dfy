/**
 * The process-wide session and capture store of src/stores/authStore.ts.
 *
 * The store's four fields are fields of class `Store`; each action of the store is a
 * method that replaces fields as the action's `set(...)` call does. The list work inside
 * the actions (`some`, spread-append, `filter`, `find`) is written as functions on
 * sequences, and what the store promises is proved about those functions.
 */
module AuthStore {
  import opened Wrappers
  import opened Catalog

  /** The signed-in user as the store keeps it (no password). */
  datatype User = User(id: string, email: string, name: string)

  /** One entry of the fixed roster the simulated login checks against. */
  datatype Account = Account(id: string, email: string, password: string, name: string)

  /** What `login` resolves to. */
  datatype LoginResult = LoginResult(success: bool, message: string)

  /** The part of the state written to durable storage (`partialize`). */
  datatype Snapshot = Snapshot(user: Option<User>, isAuthenticated: bool, capturedPokemon: seq<Pokemon>)

  const LoginSucceeded: string := "Login exitoso"
  const LoginRejected: string := "Email o contraseña incorrectos"

  // ---------------------------------------------------------------------------
  // The list operations behind capture, release and membership
  // ---------------------------------------------------------------------------

  /** `list.some(p => p.id === id)`. */
  function AnyWithId(list: seq<Pokemon>, id: int): (b: bool)
    ensures b <==> exists i :: 0 <= i < |list| && list[i].id == id
  {
    if list == [] then false
    else if list[0].id == id then true
    else
      assert forall i :: 0 < i < |list| ==> list[i] == list[1..][i - 1];
      AnyWithId(list[1..], id)
  }

  /** The list `capturePokemon(p)` leaves behind. */
  function WithCaptured(list: seq<Pokemon>, p: Pokemon): seq<Pokemon> {
    if AnyWithId(list, p.id) then list else list + [p]
  }

  /** `list.filter(p => p.id !== id)`: the list `releasePokemon(id)` leaves behind. */
  function WithoutId(list: seq<Pokemon>, id: int): (r: seq<Pokemon>)
    ensures |r| <= |list|
    ensures forall q :: q in r <==> q in list && q.id != id
    ensures !AnyWithId(r, id)
  {
    if list == [] then []
    else (if list[0].id == id then [] else [list[0]]) + WithoutId(list[1..], id)
  }

  /** No two entries share an id. */
  predicate DistinctIds(list: seq<Pokemon>) {
    forall i, j :: 0 <= i < j < |list| ==> list[i].id != list[j].id
  }

  /** The ids present in a list. */
  function IdsOf(list: seq<Pokemon>): set<int> {
    set p | p in list :: p.id
  }

  /** Capturing an id nobody holds appends the record at the end, after the earlier entries. */
  lemma CaptureAppends(list: seq<Pokemon>, p: Pokemon)
    requires !AnyWithId(list, p.id)
    ensures WithCaptured(list, p) == list + [p]
    ensures WithCaptured(list, p)[..|list|] == list && WithCaptured(list, p)[|list|] == p
  {
  }

  /** After a capture the id is held, and exactly the ids held before plus this one are held. */
  lemma CaptureMembership(list: seq<Pokemon>, p: Pokemon, id: int)
    ensures AnyWithId(WithCaptured(list, p), id) <==> AnyWithId(list, id) || id == p.id
  {
    if !AnyWithId(list, p.id) {
      var r := list + [p];
      assert r[|list|].id == p.id;
      assert forall i :: 0 <= i < |list| ==> r[i] == list[i];
    }
  }

  /** Capturing twice is capturing once. */
  lemma CaptureIdempotent(list: seq<Pokemon>, p: Pokemon)
    ensures WithCaptured(WithCaptured(list, p), p) == WithCaptured(list, p)
  {
    CaptureMembership(list, p, p.id);
  }

  /** Releasing an id nobody holds leaves the list as it was. */
  lemma {:induction false} ReleaseAbsent(list: seq<Pokemon>, id: int)
    requires !AnyWithId(list, id)
    ensures WithoutId(list, id) == list
  {
    if list != [] {
      assert list[0].id != id;
      ReleaseAbsent(list[1..], id);
      assert list == [list[0]] + list[1..];
    }
  }

  /** Releasing twice is releasing once. */
  lemma ReleaseIdempotent(list: seq<Pokemon>, id: int)
    ensures WithoutId(WithoutId(list, id), id) == WithoutId(list, id)
  {
    ReleaseAbsent(WithoutId(list, id), id);
  }

  /** Release works entry by entry: the survivors keep their relative order. */
  lemma {:induction false} ReleaseDistributes(a: seq<Pokemon>, b: seq<Pokemon>, id: int)
    ensures WithoutId(a + b, id) == WithoutId(a, id) + WithoutId(b, id)
  {
    if a == [] {
      assert a + b == b;
    } else {
      assert (a + b)[1..] == a[1..] + b;
      ReleaseDistributes(a[1..], b, id);
    }
  }

  /** An id in `IdsOf(list)` is one `AnyWithId` finds. */
  lemma HeldIdIsCaptured(list: seq<Pokemon>, id: int)
    requires id in IdsOf(list)
    ensures AnyWithId(list, id)
  {
    var q :| q in list && q.id == id;
    var k :| 0 <= k < |list| && list[k] == q;
    assert list[k].id == id;
  }

  lemma CaptureIds(list: seq<Pokemon>, p: Pokemon)
    ensures IdsOf(WithCaptured(list, p)) == IdsOf(list) + {p.id}
  {
    if AnyWithId(list, p.id) {
      var i :| 0 <= i < |list| && list[i].id == p.id;
      assert list[i] in list;
    } else {
      assert (list + [p])[|list|] == p;
    }
  }

  lemma ReleaseIds(list: seq<Pokemon>, id: int)
    ensures IdsOf(WithoutId(list, id)) == IdsOf(list) - {id}
  {
  }

  lemma CapturePreservesDistinct(list: seq<Pokemon>, p: Pokemon)
    requires DistinctIds(list)
    ensures DistinctIds(WithCaptured(list, p))
  {
    if !AnyWithId(list, p.id) {
      var r := list + [p];
      forall i, j | 0 <= i < j < |r| ensures r[i].id != r[j].id {
        if j == |list| {
          assert r[i] == list[i];
        } else {
          assert r[i] == list[i] && r[j] == list[j];
        }
      }
    }
  }

  lemma DistinctTail(list: seq<Pokemon>)
    requires list != [] && DistinctIds(list)
    ensures DistinctIds(list[1..])
    ensures forall q :: q in list[1..] ==> q.id != list[0].id
  {
    var tail := list[1..];
    forall i, j | 0 <= i < j < |tail| ensures tail[i].id != tail[j].id {
      assert tail[i] == list[i + 1] && tail[j] == list[j + 1];
    }
    forall q | q in tail ensures q.id != list[0].id {
      var k :| 0 <= k < |tail| && tail[k] == q;
      assert list[k + 1] == q;
    }
  }

  lemma DistinctCons(x: Pokemon, rest: seq<Pokemon>)
    requires DistinctIds(rest)
    requires forall q :: q in rest ==> q.id != x.id
    ensures DistinctIds([x] + rest)
  {
    var r := [x] + rest;
    forall i, j | 0 <= i < j < |r| ensures r[i].id != r[j].id {
      if i == 0 {
        assert r[j] == rest[j - 1];
      } else {
        assert r[i] == rest[i - 1] && r[j] == rest[j - 1];
      }
    }
  }

  lemma {:induction false} ReleasePreservesDistinct(list: seq<Pokemon>, id: int)
    requires DistinctIds(list)
    ensures DistinctIds(WithoutId(list, id))
  {
    if list != [] {
      DistinctTail(list);
      ReleasePreservesDistinct(list[1..], id);
      if list[0].id != id {
        DistinctCons(list[0], WithoutId(list[1..], id));
      }
    }
  }

  // ---------------------------------------------------------------------------
  // Sequences of capture and release actions
  // ---------------------------------------------------------------------------

  datatype Action = Capture(p: Pokemon) | Release(id: int)

  function Step(list: seq<Pokemon>, a: Action): seq<Pokemon> {
    match a
    case Capture(p) => WithCaptured(list, p)
    case Release(id) => WithoutId(list, id)
  }

  /** The captured list after performing `acts` in order. */
  function Run(list: seq<Pokemon>, acts: seq<Action>): seq<Pokemon>
    decreases |acts|
  {
    if acts == [] then list else Run(Step(list, acts[0]), acts[1..])
  }

  /** The reference behaviour on id sets: capture adds the id, release removes it. */
  function RunIdSet(ids: set<int>, acts: seq<Action>): set<int>
    decreases |acts|
  {
    if acts == [] then ids
    else
      match acts[0]
      case Capture(p) => RunIdSet(ids + {p.id}, acts[1..])
      case Release(id) => RunIdSet(ids - {id}, acts[1..])
  }

  /**
   * Whatever capture/release actions are performed, the ids held afterwards are those of the
   * id-set reference run, and ids that started distinct stay distinct.
   */
  lemma {:induction false} RunTracksIds(list: seq<Pokemon>, acts: seq<Action>)
    ensures IdsOf(Run(list, acts)) == RunIdSet(IdsOf(list), acts)
    ensures DistinctIds(list) ==> DistinctIds(Run(list, acts))
    decreases |acts|
  {
    if acts != [] {
      RunTracksIds(Step(list, acts[0]), acts[1..]);
      match acts[0] {
        case Capture(p) =>
          CaptureIds(list, p);
          if DistinctIds(list) { CapturePreservesDistinct(list, p); }
        case Release(id) =>
          ReleaseIds(list, id);
          if DistinctIds(list) { ReleasePreservesDistinct(list, id); }
      }
    }
  }

  lemma {:induction false} RunIdSetKeeps(ids: set<int>, acts: seq<Action>, id: int)
    requires id in ids
    requires forall k :: 0 <= k < |acts| ==> acts[k] != Release(id)
    ensures id in RunIdSet(ids, acts)
    decreases |acts|
  {
    if acts != [] {
      assert acts[0] != Release(id);
      match acts[0]
      case Capture(p) => RunIdSetKeeps(ids + {p.id}, acts[1..], id);
      case Release(other) => RunIdSetKeeps(ids - {other}, acts[1..], id);
    }
  }

  /** Once captured, an id stays captured until an action releases that id. */
  lemma CapturedUntilReleased(list: seq<Pokemon>, p: Pokemon, acts: seq<Action>)
    requires forall k :: 0 <= k < |acts| ==> acts[k] != Release(p.id)
    ensures AnyWithId(Run(WithCaptured(list, p), acts), p.id)
  {
    var start := WithCaptured(list, p);
    CaptureIds(list, p);
    RunTracksIds(start, acts);
    RunIdSetKeeps(IdsOf(start), acts, p.id);
    HeldIdIsCaptured(Run(start, acts), p.id);
  }

  // ---------------------------------------------------------------------------
  // Login against the roster
  // ---------------------------------------------------------------------------

  /** `FAKE_USERS`: five accounts, all with the same password. */
  const FakeUsers: seq<Account> := [
    Account("1", "ash@pokemon.com", "pokemon123", "Ash Ketchum"),
    Account("2", "misty@pokemon.com", "pokemon123", "Misty"),
    Account("3", "brock@pokemon.com", "pokemon123", "Brock"),
    Account("4", "pikachu@pokemon.com", "pokemon123", "Pikachu"),
    Account("5", "professor@pokemon.com", "pokemon123", "Professor Oak")
  ]

  predicate Matches(a: Account, email: string, password: string) {
    a.email == email && a.password == password
  }

  /** `roster.find(u => u.email === email && u.password === password)`: the first matching entry. */
  function FindAccount(roster: seq<Account>, email: string, password: string): (r: Option<Account>)
    ensures r.Some? <==> exists i :: 0 <= i < |roster| && Matches(roster[i], email, password)
    ensures r.Some? ==> exists i :: 0 <= i < |roster| && roster[i] == r.value
                          && Matches(roster[i], email, password)
                          && forall j :: 0 <= j < i ==> !Matches(roster[j], email, password)
  {
    if roster == [] then None
    else if Matches(roster[0], email, password) then Some(roster[0])
    else
      var r := FindAccount(roster[1..], email, password);
      assert forall i :: 0 < i < |roster| ==> roster[i] == roster[1..][i - 1];
      r
  }

  function UserOf(a: Account): User {
    User(a.id, a.email, a.name)
  }

  /** A listed account signs in as its own user; a wrong password or an unlisted email does not sign in. */
  lemma RosterLogins()
    ensures FindAccount(FakeUsers, "misty@pokemon.com", "pokemon123") == Some(FakeUsers[1])
    ensures UserOf(FakeUsers[1]) == User("2", "misty@pokemon.com", "Misty")
    ensures FindAccount(FakeUsers, "ash@pokemon.com", "pikachu") == None
    ensures FindAccount(FakeUsers, "gary@pokemon.com", "pokemon123") == None
  {
    assert !Matches(FakeUsers[0], "misty@pokemon.com", "pokemon123");
    assert Matches(FakeUsers[1], "misty@pokemon.com", "pokemon123");
    forall i | 0 <= i < |FakeUsers|
      ensures !Matches(FakeUsers[i], "ash@pokemon.com", "pikachu")
      ensures !Matches(FakeUsers[i], "gary@pokemon.com", "pokemon123")
    {
      assert FakeUsers[i].password == "pokemon123";
      assert FakeUsers[i].email[0] != 'g';
    }
  }

  // ---------------------------------------------------------------------------
  // The store
  // ---------------------------------------------------------------------------

  class Store {
    var user: Option<User>
    var isAuthenticated: bool
    var isLoading: bool
    var capturedPokemon: seq<Pokemon>

    /** What every action preserves: ids are distinct and a session has a user exactly when it is authenticated. */
    ghost predicate Valid()
      reads this
    {
      DistinctIds(capturedPokemon) && (isAuthenticated <==> user.Some?)
    }

    /** The initial state. */
    constructor ()
      ensures user == None && !isAuthenticated && !isLoading && capturedPokemon == []
      ensures Valid()
    {
      user := None;
      isAuthenticated := false;
      isLoading := false;
      capturedPokemon := [];
    }

    /** `login(email, password)`, with the simulated delay left out. */
    method Login(email: string, password: string) returns (r: LoginResult)
      modifies this
      ensures r.success <==> exists i :: 0 <= i < |FakeUsers| && Matches(FakeUsers[i], email, password)
      ensures var found := FindAccount(FakeUsers, email, password);
        if found.Some? then
          user == Some(UserOf(found.value)) && isAuthenticated && r == LoginResult(true, LoginSucceeded)
        else
          user == old(user) && isAuthenticated == old(isAuthenticated) && r == LoginResult(false, LoginRejected)
      ensures !isLoading && capturedPokemon == old(capturedPokemon)
      ensures old(Valid()) ==> Valid()
    {
      isLoading := true;
      var found := FindAccount(FakeUsers, email, password);
      if found.Some? {
        user, isAuthenticated, isLoading := Some(UserOf(found.value)), true, false;
        r := LoginResult(true, LoginSucceeded);
      } else {
        isLoading := false;
        r := LoginResult(false, LoginRejected);
      }
    }

    /** `logout()`: the session ends and the captured list is cleared, whatever came before. */
    method Logout()
      modifies this
      ensures user == None && !isAuthenticated && !isLoading && capturedPokemon == []
      ensures Valid()
    {
      user, isAuthenticated, isLoading, capturedPokemon := None, false, false, [];
    }

    /** `capturePokemon(p)`: appended when its id is absent, otherwise nothing changes. */
    method CapturePokemon(p: Pokemon)
      modifies this
      ensures capturedPokemon == WithCaptured(old(capturedPokemon), p)
      ensures old(IsPokemonCaptured(p.id)) ==> capturedPokemon == old(capturedPokemon)
      ensures !old(IsPokemonCaptured(p.id)) ==> capturedPokemon == old(capturedPokemon) + [p]
      ensures IsPokemonCaptured(p.id)
      ensures user == old(user) && isAuthenticated == old(isAuthenticated) && isLoading == old(isLoading)
      ensures old(Valid()) ==> Valid()
    {
      var already := AnyWithId(capturedPokemon, p.id);
      if !already {
        capturedPokemon := capturedPokemon + [p];
      }
      CaptureMembership(old(capturedPokemon), p, p.id);
      if old(Valid()) {
        CapturePreservesDistinct(old(capturedPokemon), p);
      }
    }

    /** `releasePokemon(id)`: every entry with that id goes, the others stay in order. */
    method ReleasePokemon(id: int)
      modifies this
      ensures capturedPokemon == WithoutId(old(capturedPokemon), id)
      ensures !IsPokemonCaptured(id)
      ensures !old(IsPokemonCaptured(id)) ==> capturedPokemon == old(capturedPokemon)
      ensures user == old(user) && isAuthenticated == old(isAuthenticated) && isLoading == old(isLoading)
      ensures old(Valid()) ==> Valid()
    {
      capturedPokemon := WithoutId(capturedPokemon, id);
      if !old(IsPokemonCaptured(id)) {
        ReleaseAbsent(old(capturedPokemon), id);
      }
      if old(Valid()) {
        ReleasePreservesDistinct(old(capturedPokemon), id);
      }
    }

    /** `isPokemonCaptured(id)`: a query, so it reads the store and changes nothing. */
    function IsPokemonCaptured(id: int): (b: bool)
      reads this
      ensures b <==> exists i :: 0 <= i < |capturedPokemon| && capturedPokemon[i].id == id
    {
      AnyWithId(capturedPokemon, id)
    }

    /** `partialize`: the persisted snapshot leaves `isLoading` out. */
    function Partialize(): (s: Snapshot)
      reads this
      ensures s.user == user && s.isAuthenticated == isAuthenticated && s.capturedPokemon == capturedPokemon
    {
      Snapshot(user, isAuthenticated, capturedPokemon)
    }

    /** Start-up rehydration: the persisted fields are merged over the current state; `isLoading` is not stored. */
    method Rehydrate(s: Snapshot)
      modifies this
      ensures Partialize() == s
      ensures isLoading == old(isLoading)
    {
      user, isAuthenticated, capturedPokemon := s.user, s.isAuthenticated, s.capturedPokemon;
    }
  }

  /**
   * A reload: ids 1, 25 and 150 are captured, the snapshot is written, and a fresh store
   * rehydrated from it holds the same three ids and no other.
   */
  method ReloadKeepsCaptures() returns (before: set<int>, after: set<int>)
    ensures before == after == {1, 25, 150}
  {
    var bulbasaur := Pokemon(1, "bulbasaur", SpriteUrl(1), ["grass", "poison"]);
    var pikachu := Pokemon(25, "pikachu", SpriteUrl(25), ["electric"]);
    var mewtwo := Pokemon(150, "mewtwo", SpriteUrl(150), ["psychic"]);
    var s := new Store();
    s.CapturePokemon(bulbasaur);
    s.CapturePokemon(pikachu);
    s.CapturePokemon(mewtwo);
    assert s.capturedPokemon == [bulbasaur, pikachu, mewtwo];
    before := IdsOf(s.capturedPokemon);
    var stored := s.Partialize();
    var reloaded := new Store();
    reloaded.Rehydrate(stored);
    after := IdsOf(reloaded.capturedPokemon);
  }
}
