/**
 * The list-item record shared by the capture store (`Pokemon` in src/stores/authStore.ts)
 * and the API layer (`PokemonListItem` in src/services/pokemonApi.ts). The two TypeScript
 * interfaces have the same fields, so under structural typing they are one type.
 */
module Catalog {
  import opened Text

  /** `{id, name, image, types}`. */
  datatype Pokemon = Pokemon(id: int, name: string, image: string, types: seq<string>)

  const SpriteBaseUrl: string := "https://raw.githubusercontent.com/PokeAPI/sprites/master/sprites/pokemon/other/dream-world/"

  /** The dream-world artwork URL every page derives from an id. */
  function SpriteUrl(id: int): string {
    SpriteBaseUrl + IntToString(id) + ".svg"
  }

  /** The image URL determines the id it was built from. */
  lemma SpriteUrlInjective(a: int, b: int)
    requires SpriteUrl(a) == SpriteUrl(b)
    ensures a == b
  {
    var u := SpriteUrl(a);
    var p := |SpriteBaseUrl|;
    assert u[p..|u| - 4] == IntToString(a);
    assert SpriteUrl(b)[p..|u| - 4] == IntToString(b);
    IntToStringInjective(a, b);
  }
}
