/**
 * Background identifiers as the kiosk stores them in a selection: catalogue backgrounds are numbers,
 * extra (themed) backgrounds are strings "custom-K" and photos uploaded at the kiosk are strings
 * "uploaded-custom-K". Also the static catalogue and the themed-background names the screens share.
 */
module Backgrounds {
  import opened Wrappers
  import opened Text

  datatype BgId = Num(n: int) | Str(s: string)

  const ExtraPrefix: string := "custom-"
  const UploadedPrefix: string := "uploaded-custom-"

  /** The ids of the twelve catalogue backgrounds. */
  const StandardBackgroundIds: seq<int> := [1, 2, 3, 4, 5, 6, 7, 8, 9, 10, 11, 12]

  /** A catalogue background: a number listed among the standard ids. */
  predicate IsStandard(id: BgId) {
    id.Num? && id.n in StandardBackgroundIds
  }

  /** An extra themed background: a string starting "custom-" that is not an upload. */
  predicate IsExtra(id: BgId) {
    id.Str? && StartsWith(id.s, ExtraPrefix) && !StartsWith(id.s, UploadedPrefix)
  }

  /** A photo uploaded at the kiosk: a string starting "uploaded-custom-". */
  predicate IsUploaded(id: BgId) {
    id.Str? && StartsWith(id.s, UploadedPrefix)
  }

  /** A themed id never carries the upload prefix: the two prefixes differ in their first letter. */
  lemma ExtraPrefixExcludesUploaded(s: string)
    ensures StartsWith(s, ExtraPrefix) ==> !StartsWith(s, UploadedPrefix)
  {
    if StartsWith(s, ExtraPrefix) {
      assert s[0] == ExtraPrefix[0] == 'c';
    }
  }

  /** The standard ids are exactly the numbers 1 to 12. */
  lemma StandardIsOneToTwelve(id: BgId)
    ensures IsStandard(id) <==> id.Num? && 1 <= id.n <= 12
  {
  }

  /** No id is in two of the three classes. */
  lemma ClassesDisjoint(id: BgId)
    ensures !(IsStandard(id) && IsExtra(id))
    ensures !(IsStandard(id) && IsUploaded(id))
    ensures !(IsExtra(id) && IsUploaded(id))
  {
  }

  /** `String(id)`: the key a background's outputs are stored under. */
  function Key(id: BgId): string {
    match id
    case Num(n) => IntToString(n)
    case Str(s) => s
  }

  /** Keys of the selection are pairwise distinct. */
  predicate DistinctKeys(sel: seq<BgId>) {
    forall i, j :: 0 <= i < j < |sel| ==> Key(sel[i]) != Key(sel[j])
  }

  /** Ids the kiosk itself creates: catalogue numbers, themed and uploaded strings. */
  predicate IsKnownShape(id: BgId) {
    id.Num? || StartsWith(id.s, ExtraPrefix) || StartsWith(id.s, UploadedPrefix)
  }

  /**
   * A duplicate-free selection of ids the kiosk creates has distinct keys: a number's key is a
   * decimal text, which never starts with a letter.
   */
  lemma DistinctKeysOfKnownShapes(sel: seq<BgId>)
    requires forall i :: 0 <= i < |sel| ==> IsKnownShape(sel[i])
    requires forall i, j :: 0 <= i < j < |sel| ==> sel[i] != sel[j]
    ensures DistinctKeys(sel)
  {
    forall i, j | 0 <= i < j < |sel| ensures Key(sel[i]) != Key(sel[j]) {
      if Key(sel[i]) == Key(sel[j]) {
        KeyDetermines(sel[i], sel[j]);
      }
    }
  }

  lemma KeyDetermines(a: BgId, b: BgId)
    requires IsKnownShape(a) && IsKnownShape(b) && Key(a) == Key(b)
    ensures a == b
  {
    if a.Num? && b.Num? {
      if a.n < 0 && b.n < 0 {
        assert Key(a)[1..] == NatToString(-a.n) && Key(b)[1..] == NatToString(-b.n);
        NatToStringInjective(-a.n, -b.n);
      } else if a.n >= 0 && b.n >= 0 {
        NatToStringInjective(a.n, b.n);
      }
    } else if a.Num? {
      NumberKeyNotLetter(a.n, b.s);
    } else if b.Num? {
      NumberKeyNotLetter(b.n, a.s);
    }
  }

  lemma NumberKeyNotLetter(n: int, s: string)
    requires StartsWith(s, ExtraPrefix) || StartsWith(s, UploadedPrefix)
    ensures IntToString(n) != s
  {
  }

  /** A catalogue entry: id and display name. */
  datatype CatalogueEntry = CatalogueEntry(id: int, name: string)

  const Catalogue: seq<CatalogueEntry> := [
    CatalogueEntry(1, "Tropical Beach"),
    CatalogueEntry(2, "Eiffel Tower"),
    CatalogueEntry(3, "New York City"),
    CatalogueEntry(4, "Mountain Sunset"),
    CatalogueEntry(5, "Space Galaxy"),
    CatalogueEntry(6, "Cherry Blossoms"),
    CatalogueEntry(7, "Northern Lights"),
    CatalogueEntry(8, "Desert Dunes"),
    CatalogueEntry(9, "Underwater Ocean"),
    CatalogueEntry(10, "Autumn Forest"),
    CatalogueEntry(11, "Grand Canyon"),
    CatalogueEntry(12, "London Bridge")
  ]

  /** The catalogue ids in catalogue order. */
  function CatalogueIds(cat: seq<CatalogueEntry>): (r: seq<int>)
    ensures |r| == |cat| && forall i :: 0 <= i < |cat| ==> r[i] == cat[i].id
  {
    seq(|cat|, i requires 0 <= i < |cat| => cat[i].id)
  }

  lemma CatalogueIdsAreStandard()
    ensures CatalogueIds(Catalogue) == StandardBackgroundIds
  {
  }

  /** `backgrounds.find(b => b.id === n)?.name` */
  function CatalogueName(cat: seq<CatalogueEntry>, n: int): (r: Option<string>)
    ensures r.Some? <==> n in CatalogueIds(cat)
    ensures r.Some? ==> exists i :: 0 <= i < |cat| && cat[i] == CatalogueEntry(n, r.value)
    decreases |cat|
  {
    if |cat| == 0 then None
    else if cat[0].id == n then Some(cat[0].name)
    else CatalogueName(cat[1..], n)
  }

  /** In a catalogue numbered consecutively from `first`, the lookup by id is a lookup by position. */
  lemma {:induction false} CatalogueNameNumbered(cat: seq<CatalogueEntry>, first: int, n: int)
    requires forall i :: 0 <= i < |cat| ==> cat[i].id == first + i
    ensures CatalogueName(cat, n) == if first <= n < first + |cat| then Some(cat[n - first].name) else None
    decreases |cat|
  {
    if |cat| > 0 && cat[0].id != n {
      CatalogueNameNumbered(cat[1..], first + 1, n);
    }
  }

  /** The kiosk's catalogue names background n at position n - 1, for n from 1 to 12. */
  lemma CatalogueNameAt(n: int)
    ensures 1 <= n <= 12 ==> CatalogueName(Catalogue, n) == Some(Catalogue[n - 1].name)
    ensures !(1 <= n <= 12) ==> CatalogueName(Catalogue, n) == None
  {
    assert forall i :: 0 <= i < |Catalogue| ==> Catalogue[i].id == 1 + i;
    CatalogueNameNumbered(Catalogue, 1, n);
  }

  /** The names of the themed backgrounds, "custom-1" to "custom-23". */
  const CustomBackgroundNames: map<string, string> := map[
    "custom-1" := "Christmas Tree",
    "custom-2" := "Halloween Pumpkins",
    "custom-3" := "Valentine Hearts",
    "custom-4" := "Birthday Party",
    "custom-5" := "Wedding Day",
    "custom-6" := "Graduation Day",
    "custom-7" := "Superhero",
    "custom-8" := "Outer Space",
    "custom-9" := "Retro 80s",
    "custom-10" := "Neon City",
    "custom-11" := "Football Field",
    "custom-12" := "Basketball Court",
    "custom-13" := "Baseball Stadium",
    "custom-14" := "Cute Puppy",
    "custom-15" := "Rainbow Fun",
    "custom-16" := "Gold Sparkle",
    "custom-17" := "Business Office",
    "custom-18" := "Fireworks Show",
    "custom-19" := "Easter Eggs",
    "custom-20" := "Fourth of July",
    "custom-21" := "Teaching Tech",
    "custom-22" := "Tech Class",
    "custom-23" := "Phone Lesson"
  ]

  /** `customBackgroundNames[id] || id` */
  function CustomNameOr(id: string): (r: string)
    ensures id in CustomBackgroundNames ==> r == CustomBackgroundNames[id]
    ensures id !in CustomBackgroundNames ==> r == id
  {
    if id in CustomBackgroundNames && CustomBackgroundNames[id] != "" then CustomBackgroundNames[id] else id
  }
}
