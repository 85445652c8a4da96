/**
 * The macOS composite font (sun.font.CCompositeFont): slot 0 holds the
 * primary font and later slots a list of fallback fonts that grows on
 * demand. Fonts are identified by their PostScript names.
 */
module CompositeFont {
  import opened Wrappers

  /** The lowest position of `name` in `names`, or -1 when it does not occur. */
  function IndexOf(names: seq<string>, name: string): (r: int)
    ensures -1 <= r < |names|
    ensures r == -1 <==> name !in names
    ensures r >= 0 ==> names[r] == name && forall j :: 0 <= j < r ==> names[j] != name
  {
    if names == [] then -1
    else if names[0] == name then 0
    else
      var i := IndexOf(names[1..], name);
      if i < 0 then -1 else i + 1
  }

  /** No name occurs twice. */
  predicate Distinct(names: seq<string>)
  {
    forall i, j :: 0 <= i < j < |names| ==> names[i] != names[j]
  }

  /** The slot names after addSlot: a name is appended only when absent. */
  function AddName(names: seq<string>, name: string): (r: seq<string>)
  {
    if name in names then names else names + [name]
  }

  /** Adding a name keeps the names pairwise distinct. */
  lemma AddNameKeepsDistinct(names: seq<string>, name: string)
    requires Distinct(names)
    ensures Distinct(AddName(names, name))
  {
    if name !in names {
      var r := names + [name];
      forall i, j | 0 <= i < j < |r| ensures r[i] != r[j] {
        if j == |names| {
          assert r[i] == names[i];
        }
      }
    }
  }

  /**
   * addSlot is idempotent: adding the same name twice leaves the names as the
   * first addition left them, and the name's slot is the old one when it was
   * present and the new last slot otherwise.
   */
  lemma AddNameIdempotent(names: seq<string>, name: string)
    ensures AddName(AddName(names, name), name) == AddName(names, name)
    ensures IndexOf(AddName(names, name), name) == if name in names then IndexOf(names, name) else |names|
  {
    var r := AddName(names, name);
    assert name in r by {
      if name !in names { assert r[|names|] == name; }
    }
    if name !in names {
      var i := IndexOf(r, name);
      assert forall j :: 0 <= j < |names| ==> r[j] == names[j];
      assert i == |names|;
    }
  }

  class CCompositeFont {
    /** The PostScript name of the component passed to the constructor (slot 0). */
    var primary: string
    var fallbackFonts: seq<string>
    var numSlots: int
    /** How many times addSlot has thrown away the cached strikes. */
    var strikeCacheClears: nat

    /** The names of slots 0 .. numSlots - 1. */
    function SlotNames(): (names: seq<string>)
      reads this
      ensures |names| == 1 + |fallbackFonts| && names[0] == primary
    {
      [primary] + fallbackFonts
    }

    /** One slot per font, and no PostScript name in two slots. */
    ghost predicate Valid()
      reads this
    {
      numSlots == 1 + |fallbackFonts| && Distinct(SlotNames())
    }

    /** The base class counts the single component it is given. */
    constructor (font: string)
      ensures Valid()
      ensures primary == font && fallbackFonts == [] && numSlots == 1 && strikeCacheClears == 0
    {
      primary := font;
      fallbackFonts := [];
      numSlots := 1;
      strikeCacheClears := 0;
    }

    function GetNumSlots(): (n: int)
      requires Valid()
      reads this
      ensures n == |SlotNames()|
    {
      numSlots
    }

    /**
     * The font in `slot`: the primary font for 0, fallback font slot - 1 for
     * a later slot; None where the source's list lookup throws.
     */
    function GetSlotFont(slot: int): (r: Option<string>)
      reads this
      ensures r.Some? <==> 0 <= slot < |SlotNames()|
      ensures r.Some? ==> r.value == SlotNames()[slot]
      ensures slot == 0 ==> r == Some(primary)
    {
      if slot == 0 then Some(primary)
      else if 1 <= slot <= |fallbackFonts| then Some(fallbackFonts[slot - 1])
      else None
    }

    /** The fallback list never has supplementary characters to report. */
    function HasSupplementaryChars(): (r: bool)
      ensures !r
    {
      false
    }

    /** Antialiasing is used at every point size. */
    function UseAAForPtSize(ptsize: int): (r: bool)
      ensures r
    {
      true
    }

    /** The lowest slot whose font has PostScript name `fontName`, or -1. */
    method FindSlot(fontName: string) returns (slot: int)
      requires Valid()
      ensures slot == IndexOf(SlotNames(), fontName)
      ensures slot == -1 <==> fontName !in SlotNames()
      ensures slot >= 0 ==> GetSlotFont(slot) == Some(fontName)
    {
      slot := 0;
      while slot < numSlots
        invariant 0 <= slot <= numSlots
        invariant forall j :: 0 <= j < slot ==> SlotNames()[j] != fontName
      {
        var slotFont := GetSlotFont(slot);
        if fontName == slotFont.value {
          return;
        }
        slot := slot + 1;
      }
      return -1;
    }

    /**
     * The slot of `font`, appending it to the fallback list when no slot has
     * its name; appending empties the strike cache.
     */
    method AddSlot(font: string) returns (slot: int)
      requires Valid()
      modifies this
      ensures Valid()
      ensures SlotNames() == AddName(old(SlotNames()), font)
      ensures slot == IndexOf(SlotNames(), font) && GetSlotFont(slot) == Some(font)
      ensures primary == old(primary)
      ensures font in old(SlotNames()) ==>
        && fallbackFonts == old(fallbackFonts) && numSlots == old(numSlots)
        && strikeCacheClears == old(strikeCacheClears)
      ensures font !in old(SlotNames()) ==>
        && fallbackFonts == old(fallbackFonts) + [font]
        && slot == old(numSlots) && numSlots == old(numSlots) + 1
        && strikeCacheClears == old(strikeCacheClears) + 1
    {
      slot := FindSlot(font);
      AddNameKeepsDistinct(SlotNames(), font);
      AddNameIdempotent(SlotNames(), font);
      if slot >= 0 {
        return;
      }
      fallbackFonts := fallbackFonts + [font];
      strikeCacheClears := strikeCacheClears + 1;
      slot := numSlots;
      numSlots := numSlots + 1;
      assert SlotNames() == old(SlotNames()) + [font];
    }
  }

  /** Adding the same font twice returns the same slot and changes nothing the second time. */
  method AddSlotTwiceScenario(primary: string, font: string) returns (first: int, second: int, slots: int)
    ensures first == second && first == (if font == primary then 0 else 1)
    ensures slots == (if font == primary then 1 else 2)
  {
    var f := new CCompositeFont(primary);
    first := f.AddSlot(font);
    second := f.AddSlot(font);
    slots := f.GetNumSlots();
  }
}
