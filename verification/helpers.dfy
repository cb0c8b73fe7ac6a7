/** The list helpers of the restaurant pages: toggling a cuisine filter, filtering the
    restaurant list, and the icon and colour tables for the cuisines. */
module Helpers {
  import opened Options
  import opened Seqs

  // ---------------------------------------------------------------------------
  // Toggling a selected cuisine

  /** `toggleType`: a cuisine already selected is dropped (every occurrence of it), one not
      yet selected is appended. */
  function ToggleType(selected: seq<string>, t: string): (r: seq<string>)
    ensures t in selected ==>
              && t !in r
              && Subsequence(r, selected)
              && forall x :: x in selected && x != t ==> multiset(r)[x] == multiset(selected)[x]
    ensures t !in selected ==> r == selected + [t]
  {
    if t in selected then
      var p := (x: string) => x != t;
      FilterIsSubsequence(selected, p);
      Filter(selected, p)
    else
      selected + [t]
  }

  /** Toggling a cuisine that was not selected, twice, gives back the original selection. */
  lemma {:induction false} ToggleAbsentTwiceRestores(selected: seq<string>, t: string)
    requires t !in selected
    ensures ToggleType(ToggleType(selected, t), t) == selected
  {
    var p := (x: string) => x != t;
    FilterAppend(selected, [t], p);
    FilterKeepsAll(selected, p);
    assert Filter([t], p) == [];
  }

  /** Toggling a selected cuisine twice moves it to the end and drops its duplicates. */
  lemma {:induction false} TogglePresentTwiceMovesToEnd(selected: seq<string>, t: string)
    requires t in selected
    ensures var r := ToggleType(ToggleType(selected, t), t);
            && |r| > 0 && r[|r| - 1] == t
            && multiset(r)[t] == 1
            && forall x :: x in selected && x != t ==> multiset(r)[x] == multiset(selected)[x]
  {
    var once := ToggleType(selected, t);
    assert multiset(once + [t]) == multiset(once) + multiset{t};
  }

  // ---------------------------------------------------------------------------
  // Filtering restaurants

  /** A cuisine tag as the API returns it inside a restaurant. */
  datatype Cuisine = Cuisine(name: string)

  datatype Restaurant = Restaurant(name: string, types: seq<Cuisine>)

  /** Some cuisine of the restaurant is among the selected names. */
  predicate HasSelectedType(r: Restaurant, selected: seq<string>)
  {
    exists i :: 0 <= i < |r.types| && r.types[i].name in selected
  }

  /** ASCII lower-casing, standing in for `String.prototype.toLowerCase`. */
  function LowerChar(c: char): char
  {
    if 'A' <= c <= 'Z' then (c as int + 32) as char else c
  }

  function Lower(s: string): string
  {
    seq(|s|, i requires 0 <= i < |s| => LowerChar(s[i]))
  }

  /** `String.prototype.includes`: `needle` occurs as a contiguous block of `hay`. */
  predicate Contains(hay: string, needle: string)
  {
    exists i | 0 <= i <= |hay| - |needle| :: OccursAt(hay, needle, i)
  }

  predicate OccursAt(hay: string, needle: string, i: int)
  {
    0 <= i && i + |needle| <= |hay| && hay[i..i + |needle|] == needle
  }

  /** The restaurant's lower-cased name contains the lower-cased search term. */
  predicate NameMatches(r: Restaurant, search: string)
  {
    Contains(Lower(r.name), Lower(search))
  }

  /** `filterRestaurants`: with no selected cuisine and no search term every restaurant is
      kept; with a selected cuisine the restaurants having one of them, whatever the search
      term; otherwise those whose name matches the search term. Order is kept. */
  function FilterRestaurants(rs: seq<Restaurant>, selected: seq<string>, search: string): (out: seq<Restaurant>)
    ensures Subsequence(out, rs) && |out| <= |rs|
    ensures |selected| == 0 && search == "" ==> out == rs
    ensures |selected| > 0 ==>
              && (forall x :: x in out <==> x in rs && HasSelectedType(x, selected))
              && (forall x :: x in rs && HasSelectedType(x, selected) ==> multiset(out)[x] == multiset(rs)[x])
    ensures |selected| == 0 && search != "" ==>
              && (forall x :: x in out <==> x in rs && NameMatches(x, search))
              && (forall x :: x in rs && NameMatches(x, search) ==> multiset(out)[x] == multiset(rs)[x])
  {
    if |selected| == 0 && search == "" then
      SubsequenceReflexive(rs);
      rs
    else if |selected| > 0 then
      var p := (r: Restaurant) => HasSelectedType(r, selected);
      FilterIsSubsequence(rs, p);
      Filter(rs, p)
    else
      var p := (r: Restaurant) => NameMatches(r, search);
      FilterIsSubsequence(rs, p);
      Filter(rs, p)
  }

  /** With a cuisine selected, the search term plays no part. */
  lemma {:induction false} SelectedTypesOverrideSearch(rs: seq<Restaurant>, selected: seq<string>, s1: string, s2: string)
    requires |selected| > 0
    ensures FilterRestaurants(rs, selected, s1) == FilterRestaurants(rs, selected, s2)
  {
  }

  /** An empty search term is contained in every lower-cased name. */
  lemma {:induction false} EmptySearchMatchesEverything(r: Restaurant)
    ensures NameMatches(r, "")
  {
    assert OccursAt(Lower(r.name), Lower(""), 0);
  }

  /** With nothing selected, the name filter run with an empty term would keep every
      restaurant, so the early return for an empty term agrees with it. */
  lemma {:induction false} EmptySearchBranchAgreesWithNameFilter(rs: seq<Restaurant>)
    ensures Filter(rs, (r: Restaurant) => NameMatches(r, "")) == FilterRestaurants(rs, [], "")
  {
    forall r: Restaurant {
      EmptySearchMatchesEverything(r);
    }
    FilterKeepsAll(rs, (r: Restaurant) => NameMatches(r, ""));
  }

  // ---------------------------------------------------------------------------
  // Icon and colour tables

  /** The ten cuisines the tables know. */
  const CuisineNames: set<string> :=
    {"Italiano", "Giapponese", "Messicano", "Indiano", "Vegetariano",
     "Americano", "Cinese", "Francese", "Tailandese", "Mediterraneo"}

  const IconClasses: map<string, string> := map[
    "Italiano" := "fas fa-pizza-slice fa-sm",
    "Giapponese" := "fas fa-fish fa-sm",
    "Messicano" := "fas fa-pepper-hot fa-sm",
    "Indiano" := "fas fa-drumstick-bite fa-sm",
    "Vegetariano" := "fas fa-leaf fa-sm",
    "Americano" := "fas fa-hamburger fa-sm",
    "Cinese" := "fas fa-cloud-meatball fa-sm",
    "Francese" := "fas fa-bread-slice fa-sm",
    "Tailandese" := "fas fa-utensils fa-sm",
    "Mediterraneo" := "fas fa-sun fa-sm"
  ]

  const IconColors: map<string, string> := map[
    "Italiano" := "#D08100",
    "Cinese" := "#e64a19",
    "Giapponese" := "#0080D0",
    "Messicano" := "#D00100",
    "Indiano" := "#ff9800",
    "Vegetariano" := "#4caf50",
    "Americano" := "#CC6400",
    "Francese" := "#fbc02d",
    "Tailandese" := "#A6A6A6",
    "Mediterraneo" := "#E3BB01"
  ]

  /** `getIconClass`: the Font Awesome classes of a known cuisine, `undefined` otherwise. */
  function GetIconClass(t: string): (r: Option<string>)
    ensures r.Some? <==> t in CuisineNames
  {
    if t in IconClasses then Some(IconClasses[t]) else None
  }

  /** `getIconColor`: the CSS colour of a known cuisine, `undefined` otherwise. */
  function GetIconColor(t: string): (r: Option<string>)
    ensures r.Some? <==> t in CuisineNames
  {
    if t in IconColors then Some(IconColors[t]) else None
  }

  /** The two tables cover the same ten cuisines. */
  lemma {:induction false} IconTablesShareDomain()
    ensures IconClasses.Keys == IconColors.Keys == CuisineNames
    ensures forall t :: GetIconClass(t).Some? <==> GetIconColor(t).Some?
  {
  }

  predicate IsHexDigit(c: char)
  {
    '0' <= c <= '9' || 'a' <= c <= 'f' || 'A' <= c <= 'F'
  }

  /** A six-digit CSS hex colour such as `#D08100`. */
  predicate IsHexColor(s: string)
  {
    |s| == 7 && s[0] == '#' && forall i :: 1 <= i < 7 ==> IsHexDigit(s[i])
  }

  /** Data sanity check on the colour table: every colour is a six-digit CSS hex colour. */
  lemma {:induction false} IconColorsAreHexColors(t: string)
    requires t in CuisineNames
    ensures IsHexColor(GetIconColor(t).value)
  {
  }
}
