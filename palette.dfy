/** The background-colour palette: two categories of eight colours each, looked up by id. */
module Palette {
  import opened Wrappers

  datatype PaletteColor = PaletteColor(id: string, displayName: string, hexColor: string)

  datatype PaletteCategory = PaletteCategory(id: string, displayName: string, colors: seq<PaletteColor>)

  const Vivid: PaletteCategory := PaletteCategory("vivid", "ビビッド", [
    PaletteColor("yellow", "イエロー", "#FBE38C"),
    PaletteColor("orange", "オレンジ", "#FFB74D"),
    PaletteColor("red", "レッド", "#EF9A9A"),
    PaletteColor("pink", "ピンク", "#F48FB1"),
    PaletteColor("purple", "パープル", "#CE93D8"),
    PaletteColor("blue", "ブルー", "#90CAF9"),
    PaletteColor("teal", "ティール", "#80CBC4"),
    PaletteColor("green", "グリーン", "#A5D6A7")
  ])

  const Natural: PaletteCategory := PaletteCategory("natural", "ナチュラル", [
    PaletteColor("cream", "クリーム", "#FFF8E1"),
    PaletteColor("peach", "ピーチ", "#FFE0B2"),
    PaletteColor("rose", "ローズ", "#FFCDD2"),
    PaletteColor("lavender", "ラベンダー", "#E1BEE7"),
    PaletteColor("sky", "スカイ", "#BBDEFB"),
    PaletteColor("mint", "ミント", "#C8E6C9"),
    PaletteColor("sand", "サンド", "#D7CCC8"),
    PaletteColor("gray", "グレー", "#CFD8DC")
  ])

  /** Every category, in display order. */
  const Categories: seq<PaletteCategory> := [Vivid, Natural]

  /** The background of a new note (vivid / yellow). */
  const DefaultHexColor: string := "#FBE38C"

  /** `Categories.FirstOrDefault(c => c.Id == id)`. */
  function FindCategory(cs: seq<PaletteCategory>, id: string): (r: Option<PaletteCategory>)
    ensures r.Some? ==> r.value in cs && r.value.id == id
    ensures r.None? ==> forall i :: 0 <= i < |cs| ==> cs[i].id != id
  {
    if cs == [] then None else if cs[0].id == id then Some(cs[0]) else FindCategory(cs[1..], id)
  }

  /**
   * `category.Colors.FirstOrDefault(c => c.Id == id)`: the same first-match lookup as `FindCategory`,
   * written once per record type because the two records share no id accessor (the model has no traits).
   */
  function FindColor(colors: seq<PaletteColor>, id: string): (r: Option<PaletteColor>)
    ensures r.Some? ==> r.value in colors && r.value.id == id
    ensures r.None? ==> forall i :: 0 <= i < |colors| ==> colors[i].id != id
  {
    if colors == [] then None else if colors[0].id == id then Some(colors[0]) else FindColor(colors[1..], id)
  }

  /** The "#RRGGBB" code of a colour, or None when the category or the colour is unknown. */
  function GetHexColor(categoryId: string, colorId: string): (r: Option<string>)
    ensures (forall i :: 0 <= i < |Categories| ==> Categories[i].id != categoryId) ==> r == None
    ensures r.Some? ==> exists i, j :: 0 <= i < |Categories| && 0 <= j < |Categories[i].colors|
                                       && Categories[i].id == categoryId
                                       && Categories[i].colors[j].id == colorId
                                       && Categories[i].colors[j].hexColor == r.value
  {
    match FindCategory(Categories, categoryId)
    case None => None
    case Some(category) =>
      match FindColor(category.colors, colorId)
      case None => None
      case Some(color) => Some(color.hexColor)
  }

  predicate DistinctCategoryIds(cs: seq<PaletteCategory>) {
    forall a, b :: 0 <= a < b < |cs| ==> cs[a].id != cs[b].id
  }

  predicate DistinctColorIds(colors: seq<PaletteColor>) {
    forall a, b :: 0 <= a < b < |colors| ==> colors[a].id != colors[b].id
  }

  predicate IsUpperHexDigit(c: char) {
    ('0' <= c <= '9') || ('A' <= c <= 'F')
  }

  /** "#" followed by six hex digits. */
  predicate IsHexColorCode(s: string) {
    |s| == 7 && s[0] == '#' && forall i :: 1 <= i < 7 ==> IsUpperHexDigit(s[i])
  }

  /** One category's list: eight colours, distinct ids, well-formed codes. */
  predicate WellFormedCategory(c: PaletteCategory) {
    |c.colors| == 8 && DistinctColorIds(c.colors) && WellFormedCodes(c.colors)
  }

  predicate WellFormedCodes(colors: seq<PaletteColor>) {
    forall j :: 0 <= j < |colors| ==> IsHexColorCode(colors[j].hexColor)
  }

  lemma VividIds()
    ensures DistinctColorIds(Vivid.colors)
  {
  }

  lemma VividCodes()
    ensures WellFormedCodes(Vivid.colors)
  {
  }

  lemma NaturalIds()
    ensures DistinctColorIds(Natural.colors)
  {
  }

  lemma NaturalCodes()
    ensures WellFormedCodes(Natural.colors)
  {
  }

  /** The table's shape: "vivid" and "natural", eight colours each, ids distinct, every code well formed. */
  lemma TableShape()
    ensures |Categories| == 2 && Categories[0].id == "vivid" && Categories[1].id == "natural"
    ensures forall i :: 0 <= i < |Categories| ==> |Categories[i].colors| == 8
    ensures DistinctCategoryIds(Categories)
    ensures forall i :: 0 <= i < |Categories| ==> DistinctColorIds(Categories[i].colors)
    ensures forall i, j :: 0 <= i < |Categories| && 0 <= j < |Categories[i].colors|
                           ==> IsHexColorCode(Categories[i].colors[j].hexColor)
  {
    VividIds();
    VividCodes();
    NaturalIds();
    NaturalCodes();
    assert WellFormedCategory(Categories[0]) && WellFormedCategory(Categories[1]);
  }

  /** With distinct ids, the first match is the only match. */
  lemma {:induction false} FindColorUnique(colors: seq<PaletteColor>, j: nat)
    requires DistinctColorIds(colors) && j < |colors|
    ensures FindColor(colors, colors[j].id) == Some(colors[j])
  {
    if j > 0 {
      assert colors[0].id != colors[j].id;
      assert colors[1..][j - 1] == colors[j];
      FindColorUnique(colors[1..], j - 1);
    }
  }

  lemma {:induction false} FindCategoryUnique(cs: seq<PaletteCategory>, i: nat)
    requires DistinctCategoryIds(cs) && i < |cs|
    ensures FindCategory(cs, cs[i].id) == Some(cs[i])
  {
    if i > 0 {
      assert cs[0].id != cs[i].id;
      assert cs[1..][i - 1] == cs[i];
      FindCategoryUnique(cs[1..], i - 1);
    }
  }

  /** Every entry of the table is found by its two ids, and gives its own code. */
  lemma GetHexColorFindsEntry(i: nat, j: nat)
    requires i < |Categories| && j < |Categories[i].colors|
    ensures GetHexColor(Categories[i].id, Categories[i].colors[j].id) == Some(Categories[i].colors[j].hexColor)
  {
    TableShape();
    FindCategoryUnique(Categories, i);
    FindColorUnique(Categories[i].colors, j);
  }

  /** A known category with a colour id it does not list gives no code. */
  lemma GetHexColorUnknownColor(i: nat, colorId: string)
    requires i < |Categories|
    requires forall j :: 0 <= j < |Categories[i].colors| ==> Categories[i].colors[j].id != colorId
    ensures GetHexColor(Categories[i].id, colorId) == None
  {
    TableShape();
    FindCategoryUnique(Categories, i);
  }

  /** The default background is the vivid / yellow entry. */
  lemma DefaultIsVividYellow()
    ensures GetHexColor("vivid", "yellow") == Some(DefaultHexColor)
  {
    GetHexColorFindsEntry(0, 0);
  }
}
