/**
 * The logic of src/components/ui/PokemonCard.tsx: the type colour lookup, the `#007`
 * id label, the link target, what the card shows for the current store, and the
 * capture toggle.
 */
module Card {
  import opened Text
  import opened Catalog
  import opened AuthStore

  /** The fallback class for a type missing from the table. */
  const DefaultColor: string := "bg-gray-400"

  /** `getTypeColor`'s table, keyed by lower-case type name. */
  const TypeColors: map<string, string> := map[
    "normal" := "bg-gray-400",
    "fire" := "bg-red-500",
    "water" := "bg-blue-500",
    "electric" := "bg-yellow-400",
    "grass" := "bg-green-500",
    "ice" := "bg-blue-200",
    "fighting" := "bg-red-700",
    "poison" := "bg-purple-500",
    "ground" := "bg-yellow-600",
    "flying" := "bg-indigo-400",
    "psychic" := "bg-pink-500",
    "bug" := "bg-green-400",
    "rock" := "bg-yellow-800",
    "ghost" := "bg-purple-700",
    "dragon" := "bg-indigo-700",
    "dark" := "bg-gray-700",
    "steel" := "bg-gray-500",
    "fairy" := "bg-pink-300"
  ]

  /** `colors[type.toLowerCase()] || 'bg-gray-400'`: every entry is non-empty, so `||` only catches a miss. */
  function TypeColor(t: string): (c: string)
    ensures ToLower(t) in TypeColors ==> c == TypeColors[ToLower(t)]
    ensures ToLower(t) !in TypeColors ==> c == DefaultColor
  {
    var key := ToLower(t);
    if key in TypeColors && TypeColors[key] != "" then TypeColors[key] else DefaultColor
  }

  /** The colour does not depend on the type name's case. */
  lemma TypeColorIgnoresCase(t: string)
    ensures TypeColor(ToLower(t)) == TypeColor(t)
  {
    ToLowerIdempotent(t);
  }

  /** Every colour comes from the table: the fallback is the `normal` colour. */
  lemma TypeColorInPalette(t: string)
    ensures TypeColor(t) in TypeColors.Values
  {
    assert TypeColors["normal"] == DefaultColor;
  }

  /** A capitalised name finds its entry. */
  lemma FireColor()
    ensures TypeColor("Fire") == "bg-red-500"
  {
    assert ToLower("Fire") == "fire";
  }

  /** A name the table lacks gets the fallback. */
  lemma UnknownTypeColor()
    ensures TypeColor("shadow") == DefaultColor
  {
    assert ToLower("shadow") == "shadow";
  }

  /** `#${id.toString().padStart(3, '0')}`. */
  function IdLabel(id: int): string {
    "#" + PadStart(IntToString(id), 3, '0')
  }

  lemma IdLabelExamples()
    ensures IdLabel(7) == "#007"
    ensures IdLabel(25) == "#025"
    ensures IdLabel(1302) == "#1302"
  {
    SomeNumerals();
    assert Repeat('0', 2) == "00";
    assert Repeat('0', 1) == "0";
  }

  /** Zero padding keeps a digit string's value. */
  lemma ZeroPaddingKeepsValue(s: string, width: nat)
    requires AllDigits(s)
    ensures AllDigits(PadStart(s, width, '0'))
    ensures DigitsValue(PadStart(s, width, '0')) == DigitsValue(s)
  {
    if |s| < width {
      LeadingZerosValue(width - |s|, s);
    }
  }

  /** For an id that is not negative, the label is `#` and at least three digits that read back as the id. */
  lemma IdLabelReadsBack(id: nat)
    ensures var tag := IdLabel(id);
      && |tag| >= 4 && tag[0] == '#'
      && AllDigits(tag[1..]) && DigitsValue(tag[1..]) == id
  {
    var s := NatToString(id);
    assert IntToString(id) == s;
    var padded := PadStart(s, 3, '0');
    assert IdLabel(id)[1..] == padded;
    NatToStringRoundTrip(id);
    ZeroPaddingKeepsValue(s, 3);
  }

  /** Distinct ids that are not negative get distinct labels. */
  lemma IdLabelInjective(a: nat, b: nat)
    requires IdLabel(a) == IdLabel(b)
    ensures a == b
  {
    IdLabelReadsBack(a);
    IdLabelReadsBack(b);
  }

  /** `/pokemon/${id}`, where a click on the card navigates. */
  function CardPath(id: int): string {
    "/pokemon/" + IntToString(id)
  }

  /** What one card renders, apart from markup and styling. */
  datatype CardView = CardView(
    link: string, alt: string, image: string, idLabel: string,
    captureButton: bool, buttonTitle: string, capturedBadge: bool,
    typeLabels: seq<string>, typeColors: seq<string>)

  function View(isAuthenticated: bool, captured: seq<Pokemon>, p: Pokemon): (v: CardView)
    ensures v.captureButton <==> isAuthenticated
    ensures v.capturedBadge <==> exists i :: 0 <= i < |captured| && captured[i].id == p.id
    ensures v.buttonTitle == if v.capturedBadge then "Liberar Pokémon" else "Capturar Pokémon"
    ensures v.link == CardPath(p.id) && v.idLabel == IdLabel(p.id) && v.alt == p.name && v.image == p.image
    ensures v.typeLabels == p.types && |v.typeColors| == |p.types|
    ensures forall k :: 0 <= k < |p.types| ==> v.typeColors[k] == TypeColor(p.types[k])
  {
    var isCaptured := AnyWithId(captured, p.id);
    CardView(CardPath(p.id), p.name, p.image, IdLabel(p.id),
             isAuthenticated, if isCaptured then "Liberar Pokémon" else "Capturar Pokémon", isCaptured,
             p.types, seq(|p.types|, k requires 0 <= k < |p.types| => TypeColor(p.types[k])))
  }

  /** Capturing an absent Pokémon and then releasing it gives back the list as it was. */
  lemma CaptureThenReleaseRestores(list: seq<Pokemon>, p: Pokemon)
    requires !AnyWithId(list, p.id)
    ensures WithoutId(WithCaptured(list, p), p.id) == list
  {
    CaptureAppends(list, p);
    ReleaseDistributes(list, [p], p.id);
    ReleaseAbsent(list, p.id);
    assert WithoutId([p], p.id) == [];
  }

  /**
   * `handleCaptureClick`: a captured Pokémon is released, any other one is captured with
   * the card's own fields. The captured state flips; nothing but the list changes.
   */
  method HandleCaptureClick(store: Store, id: int, name: string, image: string, types: seq<string>)
    modifies store
    ensures old(store.IsPokemonCaptured(id)) ==> store.capturedPokemon == WithoutId(old(store.capturedPokemon), id)
    ensures !old(store.IsPokemonCaptured(id)) ==>
      store.capturedPokemon == old(store.capturedPokemon) + [Pokemon(id, name, image, types)]
    ensures store.IsPokemonCaptured(id) == !old(store.IsPokemonCaptured(id))
    ensures store.user == old(store.user) && store.isAuthenticated == old(store.isAuthenticated)
    ensures store.isLoading == old(store.isLoading)
    ensures old(store.Valid()) ==> store.Valid()
  {
    if store.IsPokemonCaptured(id) {
      store.ReleasePokemon(id);
    } else {
      store.CapturePokemon(Pokemon(id, name, image, types));
    }
  }

  /** Two clicks on the button of an uncaptured card leave the store's list as it was. */
  method DoubleClick(store: Store, p: Pokemon)
    requires !store.IsPokemonCaptured(p.id)
    modifies store
    ensures store.capturedPokemon == old(store.capturedPokemon)
  {
    HandleCaptureClick(store, p.id, p.name, p.image, p.types);
    HandleCaptureClick(store, p.id, p.name, p.image, p.types);
    CaptureThenReleaseRestores(old(store.capturedPokemon), p);
  }
}
