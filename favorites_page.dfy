/**
 * The logic of src/pages/FavoritesPage.tsx: the page is a function of the session and
 * the captured list, with three summary figures and one card per captured Pokémon.
 */
module Favorites {
  import opened Wrappers
  import opened Catalog
  import opened AuthStore
  import opened Card

  /** The size of the first generation, the basis of the completion figure. */
  const FirstGeneration: nat := 151

  /** `Math.round(n / 151 * 100)` for a positive count, `0` for none. */
  function Completion(n: nat): (r: nat)
    ensures n > 0 ==> 151 * r - 75 <= 100 * n <= 151 * r + 75
    ensures n == 0 ==> r == 0
  {
    if n > 0 then (200 * n + 151) / 302 else 0
  }

  /** The percentage is the nearest one: no other whole number is as close to `n / 151 * 100`. */
  lemma CompletionIsNearest(n: nat, q: int)
    requires n > 0 && q != Completion(n)
    ensures 151 * q - 75 > 100 * n || 100 * n > 151 * q + 75
  {
  }

  /** Within the first generation the figure never passes 100, and the whole generation is 100. */
  lemma CompletionBounds(n: nat)
    ensures n <= FirstGeneration ==> Completion(n) <= 100
    ensures Completion(FirstGeneration) == 100
    ensures Completion(1) == 1 && Completion(76) == 50
  {
  }

  /** `new Set(captured.flatMap(p => p.types))`. */
  function TypeSet(captured: seq<Pokemon>): (r: set<string>)
    ensures forall t :: t in r <==> exists i :: 0 <= i < |captured| && t in captured[i].types
  {
    if captured == [] then {}
    else
      assert forall i :: 0 < i < |captured| ==> captured[i] == captured[1..][i - 1];
      (set t | t in captured[0].types) + TypeSet(captured[1..])
  }

  /** The number of type names on all captured entries, repeats included. */
  function TypeSlots(captured: seq<Pokemon>): nat {
    if captured == [] then 0 else |captured[0].types| + TypeSlots(captured[1..])
  }

  lemma {:induction false} DistinctNamesAtMostLength(s: seq<string>)
    ensures |set t | t in s| <= |s|
  {
    if s != [] {
      DistinctNamesAtMostLength(s[1..]);
      assert (set t | t in s) == {s[0]} + (set t | t in s[1..]);
    }
  }

  /** "Tipos Diferentes" never exceeds the number of type names shown on the cards. */
  lemma {:induction false} DistinctTypesAtMostSlots(captured: seq<Pokemon>)
    ensures |TypeSet(captured)| <= TypeSlots(captured)
  {
    if captured != [] {
      DistinctTypesAtMostSlots(captured[1..]);
      DistinctNamesAtMostLength(captured[0].types);
      assert TypeSet(captured) == (set t | t in captured[0].types) + TypeSet(captured[1..]);
    }
  }

  /** The type set of a list split in two is the union of the parts' sets, so it ignores order. */
  lemma TypeSetOfAppend(a: seq<Pokemon>, b: seq<Pokemon>)
    ensures TypeSet(a + b) == TypeSet(a) + TypeSet(b)
  {
    forall t ensures t in TypeSet(a + b) <==> t in TypeSet(a) + TypeSet(b) {
      if t in TypeSet(a + b) {
        var i :| 0 <= i < |a + b| && t in (a + b)[i].types;
        if i >= |a| {
          assert b[i - |a|] == (a + b)[i];
        }
      }
      if t in TypeSet(a) {
        var i :| 0 <= i < |a| && t in a[i].types;
        assert (a + b)[i] == a[i];
      }
      if t in TypeSet(b) {
        var i :| 0 <= i < |b| && t in b[i].types;
        assert (a + b)[|a| + i] == b[i];
      }
    }
  }

  /** Capturing a new Pokémon adds its types to the set and removes none. */
  lemma CaptureAddsTypes(captured: seq<Pokemon>, p: Pokemon)
    requires !AnyWithId(captured, p.id)
    ensures TypeSet(WithCaptured(captured, p)) == TypeSet(captured) + (set t | t in p.types)
  {
    CaptureAppends(captured, p);
    TypeSetOfAppend(captured, [p]);
  }

  /** What the page renders. */
  datatype FavoritesView =
    | Restricted
    | Collection(greetingName: string, count: nat, completion: nat, distinctTypes: nat,
                 emptyState: bool, cards: seq<CardView>)

  /** The page for the session and the captured list; `user?.name` renders nothing without a user. */
  function Render(isAuthenticated: bool, user: Option<User>, captured: seq<Pokemon>): (v: FavoritesView)
    ensures v == Restricted <==> !isAuthenticated
    ensures v.Collection? ==>
      && v.count == |captured|
      && v.completion == Completion(|captured|)
      && v.distinctTypes == |TypeSet(captured)|
      && (v.emptyState <==> captured == [])
      && |v.cards| == |captured|
      && forall k :: 0 <= k < |captured| ==> v.cards[k] == View(true, captured, captured[k])
  {
    if !isAuthenticated then Restricted
    else
      Collection(if user.Some? then user.value.name else "", |captured|, Completion(|captured|), |TypeSet(captured)|,
                 captured == [], seq(|captured|, k requires 0 <= k < |captured| => View(true, captured, captured[k])))
  }

  /** Every card on the page shows the captured badge and offers release. */
  lemma EveryCardReleases(user: Option<User>, captured: seq<Pokemon>)
    ensures var v := Render(true, user, captured);
      forall k :: 0 <= k < |v.cards| ==>
        v.cards[k].capturedBadge && v.cards[k].captureButton && v.cards[k].buttonTitle == "Liberar Pokémon"
  {
    var v := Render(true, user, captured);
    forall k | 0 <= k < |v.cards|
      ensures v.cards[k].capturedBadge
    {
      assert captured[k].id == captured[k].id;
    }
  }
}
