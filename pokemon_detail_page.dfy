/**
 * The logic of src/pages/PokemonDetailPage.tsx: the id read from the route, the
 * formatting of the fetched record, the labels and stat summaries the page shows, the
 * screen it picks, and the capture toggle.
 */
module DetailPage {
  import opened Wrappers
  import opened Text
  import opened Catalog
  import opened AuthStore
  import opened PokemonApi
  import opened Card

  // ---------------------------------------------------------------------------
  // The route
  // ---------------------------------------------------------------------------

  /** `id || '1'`: an absent or empty route parameter falls back to `"1"`. */
  function RouteId(param: Option<string>): (s: string)
    ensures s != []
    ensures param.None? || param.value == "" ==> s == "1"
    ensures param.Some? && param.value != "" ==> s == param.value
  {
    if param.None? || param.value == "" then "1" else param.value
  }

  /** `parseInt(id || '1')`; `None` is `NaN`. */
  function PokemonId(param: Option<string>): Option<int> {
    ParseInt(RouteId(param))
  }

  /** `enabled: !!pokemonId`: `NaN` and `0` keep the query off. */
  predicate QueryEnabled(pid: Option<int>) {
    pid.Some? && pid.value != 0
  }

  /** With no usable parameter the page shows Pokémon 1. */
  lemma DefaultRoute()
    ensures PokemonId(None) == Some(1) && PokemonId(Some("")) == Some(1)
    ensures QueryEnabled(Some(1))
  {
    ParseIntOfIntToString(1);
    SomeNumerals();
  }

  /** The link of a card opens that card's Pokémon, and the query runs unless the id is 0. */
  lemma CardLinkOpensDetail(id: int)
    ensures CardPath(id)[|"/pokemon/"|..] == IntToString(id)
    ensures PokemonId(Some(IntToString(id))) == Some(id)
    ensures QueryEnabled(PokemonId(Some(IntToString(id)))) <==> id != 0
  {
    IntToStringSign(id);
    ParseIntOfIntToString(id);
  }

  /** A route that starts with digits opens the Pokémon those digits spell; whatever follows is ignored. */
  lemma DigitRoute(d: string, rest: string)
    requires d != [] && AllDigits(d)
    requires rest == [] || !IsDigit(rest[0])
    ensures PokemonId(Some(d + rest)) == Some(DigitsValue(d))
  {
    ParseIntDigitPrefix(d, rest);
  }

  /** Zero padding in front of a number and any tail that does not start with a digit are ignored: `025abc` is 25. */
  lemma PaddedRoute(zeros: nat, n: nat, rest: string)
    requires rest == [] || !IsDigit(rest[0])
    ensures PokemonId(Some(Repeat('0', zeros) + NatToString(n) + rest)) == Some(n)
  {
    var d := Repeat('0', zeros) + NatToString(n);
    LeadingZerosValue(zeros, NatToString(n));
    NatToStringRoundTrip(n);
    DigitRoute(d, rest);
  }

  /** A name in the route is `NaN` to `parseInt`, so the query stays off although the service accepts names. */
  lemma NameRouteDisabled()
    ensures PokemonId(Some("pikachu")) == None
    ensures !QueryEnabled(PokemonId(Some("pikachu")))
  {
    assert !IsJsWhitespace('p');
    TrimStartNoBlank("pikachu");
    assert DigitPrefixLength("pikachu") == 0;
  }

  // ---------------------------------------------------------------------------
  // The formatted record
  // ---------------------------------------------------------------------------

  /** The six stats, in the order the page lists them. */
  datatype Stats = Stats(hp: int, attack: int, defense: int, specialAttack: int, specialDefense: int, speed: int)

  /**
   * `PokemonDetail`. The weight is kept in hectograms, as fetched: the page shows it
   * divided by ten.
   */
  datatype PokemonDetail = PokemonDetail(
    id: int, name: string, image: string, types: seq<string>, heightCm: int, weightHg: int,
    abilities: seq<string>, stats: Stats)

  /** `stats.find(s => s.stat.name === key)?.base_stat || 0`. */
  function StatValue(stats: seq<StatSlot>, key: string): (v: int)
    ensures (forall i :: 0 <= i < |stats| ==> stats[i].statName != key) ==> v == 0
    ensures forall i :: (0 <= i < |stats| && stats[i].statName == key && (forall j :: 0 <= j < i ==> stats[j].statName != key))
                        ==> v == stats[i].baseStat
  {
    if stats == [] then 0
    else if stats[0].statName == key then stats[0].baseStat
    else
      assert forall i :: 0 < i < |stats| ==> stats[i] == stats[1..][i - 1];
      StatValue(stats[1..], key)
  }

  function AbilityNames(abilities: seq<AbilitySlot>): (r: seq<string>)
    ensures |r| == |abilities| && forall k :: 0 <= k < |r| ==> r[k] == abilities[k].abilityName
  {
    seq(|abilities|, k requires 0 <= k < |abilities| => abilities[k].abilityName)
  }

  /** The effect that turns the fetched record into the page's record. */
  function Format(d: PokemonData): PokemonDetail {
    PokemonDetail(
      d.id, d.name, SpriteUrl(d.id), TypeNames(d.types), d.height * 10, d.weight, AbilityNames(d.abilities),
      Stats(StatValue(d.stats, "hp"), StatValue(d.stats, "attack"), StatValue(d.stats, "defense"),
            StatValue(d.stats, "special-attack"), StatValue(d.stats, "special-defense"), StatValue(d.stats, "speed")))
  }

  /** The formatted record keeps id, name, types and abilities in order, and converts height to centimetres. */
  lemma FormatShape(d: PokemonData)
    ensures var p := Format(d);
      && p.id == d.id && p.name == d.name && p.image == SpriteUrl(d.id)
      && |p.types| == |d.types| && (forall k :: 0 <= k < |d.types| ==> p.types[k] == d.types[k].typeName)
      && |p.abilities| == |d.abilities| && (forall k :: 0 <= k < |d.abilities| ==> p.abilities[k] == d.abilities[k].abilityName)
      && p.heightCm == 10 * d.height
  {
  }

  /** A record without a `speed` entry gets speed 0; the first `hp` entry wins over later ones. */
  lemma MissingAndDuplicateStats()
    ensures var d := PokemonData(1, "x", 7, 69, [], [StatSlot(45, "hp"), StatSlot(99, "hp")], []);
      Format(d).stats.hp == 45 && Format(d).stats.speed == 0
  {
  }

  // ---------------------------------------------------------------------------
  // Labels
  // ---------------------------------------------------------------------------

  /**
   * The height label for a record of `dm` decimetres (`height` is `dm * 10` centimetres):
   * `(height / 100).toFixed(1) + " m"` from one metre on, `height + " cm"` below.
   * `toFixed(1)` of a whole number of decimetres is exact, so the metre label is the
   * decimetre count with a point before its last digit.
   */
  function HeightLabel(dm: int): string {
    if dm * 10 >= 100 then IntToString(dm / 10) + "." + [DigitChar(dm % 10)] + " m"
    else IntToString(dm * 10) + " cm"
  }

  /** The height label reads back as the decimetre count. */
  lemma HeightLabelReadsBack(dm: nat)
    ensures var t := HeightLabel(dm);
      if dm >= 10 then
        && |t| >= 5 && t[|t| - 2..] == " m" && t[|t| - 4] == '.'
        && AllDigits(t[..|t| - 4]) && IsDigit(t[|t| - 3])
        && DigitsValue(t[..|t| - 4]) * 10 + DigitValue(t[|t| - 3]) == dm
      else
        && t[|t| - 3..] == " cm" && AllDigits(t[..|t| - 3]) && DigitsValue(t[..|t| - 3]) == 10 * dm
  {
    var t := HeightLabel(dm);
    if dm >= 10 {
      var w := NatToString(dm / 10);
      assert IntToString(dm / 10) == w;
      assert t == w + "." + [DigitChar(dm % 10)] + " m";
      assert t[..|t| - 4] == w;
      NatToStringRoundTrip(dm / 10);
    } else {
      var w := NatToString(dm * 10);
      assert IntToString(dm * 10) == w;
      assert t[..|t| - 3] == w;
      NatToStringRoundTrip(dm * 10);
    }
  }

  lemma HeightExamples()
    ensures HeightLabel(7) == "70 cm"
    ensures HeightLabel(17) == "1.7 m"
    ensures HeightLabel(10) == "1.0 m"
  {
    SomeNumerals();
  }

  /** How JavaScript writes `n / 10` for a count of tenths `n`: no trailing `.0`. */
  function Tenths(n: nat): string {
    if n % 10 == 0 then NatToString(n / 10) else NatToString(n / 10) + "." + [DigitChar(n % 10)]
  }

  /** `${weight / 10}`, the kilogram figure of a weight in hectograms. */
  function WeightLabel(hg: int): string {
    if hg < 0 then "-" + Tenths(-hg) else Tenths(hg)
  }

  /** The weight label reads back as the hectogram count, with a decimal digit only when it is not 0. */
  lemma WeightLabelReadsBack(hg: nat)
    ensures var t := WeightLabel(hg);
      if hg % 10 == 0 then
        AllDigits(t) && DigitsValue(t) * 10 == hg
      else
        && |t| >= 3 && t[|t| - 2] == '.' && AllDigits(t[..|t| - 2]) && IsDigit(t[|t| - 1]) && t[|t| - 1] != '0'
        && DigitsValue(t[..|t| - 2]) * 10 + DigitValue(t[|t| - 1]) == hg
  {
    var t := WeightLabel(hg);
    var w := NatToString(hg / 10);
    NatToStringRoundTrip(hg / 10);
    if hg % 10 != 0 {
      assert t == w + "." + [DigitChar(hg % 10)];
      assert t[..|t| - 2] == w;
    }
  }

  lemma WeightExamples()
    ensures WeightLabel(69) == "6.9"
    ensures WeightLabel(60) == "6"
    ensures WeightLabel(9050) == "905"
  {
    assert NatToString(6) == "6";
    assert NatToString(905) == "905";
  }

  // ---------------------------------------------------------------------------
  // Stats
  // ---------------------------------------------------------------------------

  /** `Object.values(stats)`, in insertion order. */
  function StatValues(s: Stats): (xs: seq<int>)
    ensures |xs| == 6
  {
    [s.hp, s.attack, s.defense, s.specialAttack, s.specialDefense, s.speed]
  }

  /** The keys of `Object.entries(stats)` with the label each row shows. */
  function StatLabels(): seq<string> {
    ["HP", "attack", "defense", "Sp. Atk", "Sp. Def", "speed"]
  }

  function Sum(xs: seq<int>): int {
    if xs == [] then 0 else xs[0] + Sum(xs[1..])
  }

  /** The "BST" figure: `hp + attack + defense + specialAttack + specialDefense + speed`, already whole. */
  function BaseStatTotal(s: Stats): int {
    s.hp + s.attack + s.defense + s.specialAttack + s.specialDefense + s.speed
  }

  /** The total is the sum of the listed values. */
  lemma BaseStatTotalIsSum(s: Stats)
    ensures BaseStatTotal(s) == Sum(StatValues(s))
  {
    var xs := StatValues(s);
    assert xs[1..][1..][1..][1..][1..][1..] == [];
    assert Sum(xs[1..][1..][1..][1..][1..]) == s.speed;
    assert Sum(xs[1..][1..][1..][1..]) == s.specialDefense + s.speed;
    assert Sum(xs[1..][1..][1..]) == s.specialAttack + s.specialDefense + s.speed;
    assert Sum(xs[1..][1..]) == s.defense + s.specialAttack + s.specialDefense + s.speed;
  }

  /** `xs.filter(v => v >= t).length`. */
  function CountAtLeast(xs: seq<int>, t: int): (n: nat)
    ensures n <= |xs|
    ensures n == |xs| <==> forall i :: 0 <= i < |xs| ==> xs[i] >= t
    ensures n == 0 <==> forall i :: 0 <= i < |xs| ==> xs[i] < t
  {
    if xs == [] then 0
    else
      assert forall i :: 0 < i < |xs| ==> xs[i] == xs[1..][i - 1];
      (if xs[0] >= t then 1 else 0) + CountAtLeast(xs[1..], t)
  }

  /** Counting a concatenation counts each part. */
  lemma {:induction false} CountAtLeastAppend(a: seq<int>, b: seq<int>, t: int)
    ensures CountAtLeast(a + b, t) == CountAtLeast(a, t) + CountAtLeast(b, t)
    decreases |a|
  {
    if a == [] {
      assert a + b == b;
    } else {
      assert (a + b)[1..] == a[1..] + b;
      CountAtLeastAppend(a[1..], b, t);
    }
  }

  /** The positions of `xs` holding a value of at least `t`. */
  function AtLeastPositions(xs: seq<int>, t: int): set<int> {
    set i | 0 <= i < |xs| && xs[i] >= t
  }

  /** The count is the number of positions whose value reaches the threshold. */
  lemma {:induction false} CountAtLeastIsPositions(xs: seq<int>, t: int)
    ensures CountAtLeast(xs, t) == |AtLeastPositions(xs, t)|
    decreases |xs|
  {
    if xs != [] {
      var ys, x := xs[..|xs| - 1], xs[|xs| - 1];
      assert xs == ys + [x];
      CountAtLeastAppend(ys, [x], t);
      CountAtLeastIsPositions(ys, t);
      var last := if x >= t then {|ys|} else {};
      assert AtLeastPositions(xs, t) == AtLeastPositions(ys, t) + last;
      assert |ys| !in AtLeastPositions(ys, t);
    } else {
      assert AtLeastPositions(xs, t) == {};
    }
  }

  /** The "Altos" figure: how many stats are at least 80. */
  function HighStats(s: Stats): (n: nat)
    ensures n <= 6
  {
    CountAtLeast(StatValues(s), 80)
  }

  /** One for each of the six stats that is at least 80. */
  function High(v: int): nat {
    if v >= 80 then 1 else 0
  }

  /** The "Altos" figure adds up, stat by stat, whether each one reaches 80. */
  lemma HighStatsCount(s: Stats)
    ensures HighStats(s) == High(s.hp) + High(s.attack) + High(s.defense)
                          + High(s.specialAttack) + High(s.specialDefense) + High(s.speed)
    ensures HighStats(s) == |AtLeastPositions(StatValues(s), 80)|
  {
    var xs := StatValues(s);
    assert xs[1..][1..][1..][1..][1..][1..] == [];
    assert CountAtLeast(xs[1..][1..][1..][1..][1..], 80) == High(s.speed);
    assert CountAtLeast(xs[1..][1..][1..][1..], 80) == High(s.specialDefense) + High(s.speed);
    assert CountAtLeast(xs[1..][1..][1..], 80) == High(s.specialAttack) + High(s.specialDefense) + High(s.speed);
    assert CountAtLeast(xs[1..][1..], 80) == High(s.defense) + High(s.specialAttack) + High(s.specialDefense) + High(s.speed);
    CountAtLeastIsPositions(xs, 80);
  }

  /** `Math.max(...xs)` for a non-empty list. */
  function Max(xs: seq<int>): (m: int)
    requires xs != []
    ensures forall i :: 0 <= i < |xs| ==> xs[i] <= m
    ensures exists i :: 0 <= i < |xs| && xs[i] == m
  {
    if |xs| == 1 then xs[0]
    else
      assert forall i :: 0 < i < |xs| ==> xs[i] == xs[1..][i - 1];
      var rest := Max(xs[1..]);
      if xs[0] >= rest then xs[0] else rest
  }

  /** The "Mejor" figure. */
  function BestStat(s: Stats): int {
    Max(StatValues(s))
  }

  lemma {:induction false} MulMonotone(a: nat, b: int, c: int)
    requires b <= c
    ensures a * b <= a * c
  {
    if a > 0 {
      MulMonotone(a - 1, b, c);
      assert a * b == (a - 1) * b + b;
      assert a * c == (a - 1) * c + c;
    }
  }

  lemma MulSucc(n: nat, m: int)
    ensures (n + 1) * m == n * m + m
  {
  }

  /** No list sums to more than its length times its largest entry. */
  lemma {:induction false} SumAtMostLengthTimesMax(xs: seq<int>)
    requires xs != []
    ensures Sum(xs) <= |xs| * Max(xs)
    decreases |xs|
  {
    var m := Max(xs);
    if |xs| == 1 {
      assert Sum(xs) == xs[0] + Sum(xs[1..]);
      assert xs[1..] == [];
    } else {
      var tail := xs[1..];
      var mt := Max(tail);
      SumAtMostLengthTimesMax(tail);
      assert mt <= m by {
        var j :| 0 <= j < |tail| && tail[j] == mt;
        assert xs[j + 1] == mt;
      }
      var n := |tail|;
      assert Sum(xs) == xs[0] + Sum(tail);
      assert xs[0] <= m;
      MulMonotone(n, mt, m);
      MulSucc(n, m);
      assert |xs| == n + 1;
    }
  }

  /** The three summary figures agree: the total is at most six times the best, and the best is high exactly when some stat is. */
  lemma SummaryConsistent(s: Stats)
    ensures BaseStatTotal(s) <= 6 * BestStat(s)
    ensures HighStats(s) > 0 <==> BestStat(s) >= 80
  {
    SumAtMostLengthTimesMax(StatValues(s));
    BaseStatTotalIsSum(s);
  }

  /** The bar colour for a stat value. */
  function StatBarColor(v: int): string {
    if v >= 90 then "bg-purple-500"
    else if v >= 80 then "bg-green-500"
    else if v >= 70 then "bg-blue-500"
    else if v >= 60 then "bg-yellow-500"
    else if v >= 50 then "bg-orange-500"
    else "bg-red-500"
  }

  /** The colours from the lowest band to the highest. */
  function Bands(): seq<string> {
    ["bg-red-500", "bg-orange-500", "bg-yellow-500", "bg-blue-500", "bg-green-500", "bg-purple-500"]
  }

  /** The band of a value: bands are ten points wide from 50 to 90. */
  function Band(v: int): (b: nat)
    ensures b < 6
  {
    if v >= 90 then 5 else if v < 50 then 0 else (v - 40) / 10
  }

  /** The colour ladder is the band table, so a higher stat never gets a lower colour. */
  lemma StatBarColorIsBand(v: int, w: int)
    ensures StatBarColor(v) == Bands()[Band(v)]
    ensures v <= w ==> Band(v) <= Band(w)
  {
  }

  /** One row of the stats list. */
  datatype StatRow = StatRow(name: string, value: int, color: string)

  function StatRows(s: Stats): (rows: seq<StatRow>)
    ensures |rows| == 6
    ensures forall k :: 0 <= k < 6 ==>
      rows[k] == StatRow(StatLabels()[k], StatValues(s)[k], StatBarColor(StatValues(s)[k]))
  {
    var xs := StatValues(s);
    seq(6, k requires 0 <= k < 6 => StatRow(StatLabels()[k], xs[k], StatBarColor(xs[k])))
  }

  // ---------------------------------------------------------------------------
  // The screen
  // ---------------------------------------------------------------------------

  datatype DetailView = DetailView(
    name: string, image: string, idLabel: string, types: seq<string>, typeColors: seq<string>,
    capturedBadge: bool, captureButton: bool, buttonText: string,
    height: string, weight: string, abilities: seq<string>,
    rows: seq<StatRow>, total: int, high: nat, best: int)

  datatype DetailScreen = Spinner | Missing | Shown(view: DetailView)

  /**
   * The screen for the query flags, the formatted record the page holds, the session and
   * the route's id. The badge and the button text follow the route's id, not the record's.
   */
  function Screen(loading: bool, failed: bool, detail: Option<PokemonDetail>,
                  isAuthenticated: bool, captured: seq<Pokemon>, pid: Option<int>): (s: DetailScreen)
    ensures s == Spinner <==> loading
    ensures s == Missing <==> !loading && (failed || detail.None?)
    ensures s.Shown? ==> var v := s.view;
      && v.name == detail.value.name && v.idLabel == IdLabel(detail.value.id)
      && (v.capturedBadge <==> pid.Some? && exists i :: 0 <= i < |captured| && captured[i].id == pid.value)
      && (v.captureButton <==> isAuthenticated)
      && v.buttonText == (if v.capturedBadge then "Liberar Pokémon" else "Capturar Pokémon")
      && |v.typeColors| == |v.types| == |detail.value.types|
      && (forall k :: 0 <= k < |v.types| ==> v.typeColors[k] == TypeColor(v.types[k]))
      && v.image == detail.value.image && v.types == detail.value.types
      && v.height == HeightLabel(detail.value.heightCm / 10)
      && v.weight == WeightLabel(detail.value.weightHg) + " kg"
      && v.abilities == detail.value.abilities
      && v.rows == StatRows(detail.value.stats)
      && v.total == BaseStatTotal(detail.value.stats)
      && v.high == HighStats(detail.value.stats)
      && v.best == BestStat(detail.value.stats)
      && v.total <= 6 * v.best
  {
    if loading then Spinner
    else if failed || detail.None? then Missing
    else
      var p := detail.value;
      var isCaptured := pid.Some? && AnyWithId(captured, pid.value);
      SummaryConsistent(p.stats);
      Shown(DetailView(
        p.name, p.image, IdLabel(p.id), p.types,
        seq(|p.types|, k requires 0 <= k < |p.types| => TypeColor(p.types[k])),
        isCaptured, isAuthenticated, if isCaptured then "Liberar Pokémon" else "Capturar Pokémon",
        HeightLabel(p.heightCm / 10),
        WeightLabel(p.weightHg) + " kg", p.abilities,
        StatRows(p.stats), BaseStatTotal(p.stats), HighStats(p.stats), BestStat(p.stats)))
  }

  /** The height shown for a fetched record is the height label of its decimetre count. */
  lemma ShownHeight(d: PokemonData, isAuthenticated: bool, captured: seq<Pokemon>, pid: Option<int>)
    ensures Screen(false, false, Some(Format(d)), isAuthenticated, captured, pid).view.height == HeightLabel(d.height)
  {
    var p := Format(d);
    assert p.heightCm / 10 == d.height;
  }

  // ---------------------------------------------------------------------------
  // The page state
  // ---------------------------------------------------------------------------

  /**
   * The route parameter and the `pokemonDetail` state. Navigating to another id keeps the
   * component and therefore the last formatted record until a new one arrives.
   */
  class DetailSession {
    var routeParam: Option<string>
    var detail: Option<PokemonDetail>

    constructor (param: Option<string>)
      ensures routeParam == param && detail == None
    {
      routeParam, detail := param, None;
    }

    function Pid(): Option<int>
      reads this
    {
      PokemonId(routeParam)
    }

    /** The route changes; the held record stays. */
    method Navigate(param: Option<string>)
      modifies this
      ensures routeParam == param && detail == old(detail)
    {
      routeParam := param;
    }

    /** The query delivers a record: the effect stores its formatted form. */
    method DetailArrived(d: PokemonData)
      modifies this
      ensures detail == Some(Format(d)) && routeParam == old(routeParam)
    {
      detail := Some(Format(d));
    }

    /**
     * `handleCaptureClick`: without a record nothing happens; otherwise the route's id is
     * released when captured, or captured with the record's name, image and types.
     */
    method HandleCaptureClick(store: Store)
      modifies store
      ensures detail.None? || Pid().None? ==> store.capturedPokemon == old(store.capturedPokemon)
      ensures detail.Some? && Pid().Some? ==>
        if old(store.IsPokemonCaptured(Pid().value)) then
          store.capturedPokemon == WithoutId(old(store.capturedPokemon), Pid().value)
        else
          store.capturedPokemon
            == old(store.capturedPokemon) + [Pokemon(Pid().value, detail.value.name, detail.value.image, detail.value.types)]
      ensures store.user == old(store.user) && store.isAuthenticated == old(store.isAuthenticated)
      ensures store.isLoading == old(store.isLoading)
      ensures old(store.Valid()) ==> store.Valid()
    {
      var pid := Pid();
      if detail.Some? && pid.Some? {
        var p := detail.value;
        if store.IsPokemonCaptured(pid.value) {
          store.ReleasePokemon(pid.value);
        } else {
          store.CapturePokemon(Pokemon(pid.value, p.name, p.image, p.types));
        }
      }
    }
  }

  /**
   * Moving from `/pokemon/25` to `/pokemon/pikachu` disables the query, and the page keeps
   * showing the record fetched for 25.
   */
  method StaleRecordAfterNavigation(d: PokemonData) returns (enabled: bool, shown: DetailScreen)
    requires d.name == "pikachu"
    ensures !enabled
    ensures shown.Shown? && shown.view.name == "pikachu"
  {
    var page := new DetailSession(Some("25"));
    page.DetailArrived(d);
    page.Navigate(Some("pikachu"));
    NameRouteDisabled();
    enabled := QueryEnabled(page.Pid());
    shown := Screen(false, false, page.detail, false, [], page.Pid());
  }
}
