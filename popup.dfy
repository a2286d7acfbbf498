/**
 * The component's `popup` record: the window features passed to
 * `window.open`, the popup's size and position, and the handle of the last
 * window opened. `ready` centres the popup on the screen; `_openSharer` writes
 * the record out as a feature string of comma-separated `key=value` entries.
 */
module PopupSettings {
  import opened Wrappers
  import opened Text
  import opened Decimal

  /** What `window.open` returns: `null` when the popup is blocked, or a window. */
  datatype Handle = Null | Window(id: nat)

  /** `window` is `None` while it is still `undefined`. */
  datatype Popup = Popup(
    status: bool, resizable: bool, toolbar: bool, menubar: bool,
    scrollbars: bool, location: bool, directories: bool,
    width: int, height: int, top: HalfNumber, left: HalfNumber,
    window: Option<Handle>)

  /** The record a new component starts with. */
  const DefaultPopup := Popup(false, true, false, false, false, false, false, 626, 436, 0.0, 0.0, None)

  // ---------------------------------------------------------------------------
  // Geometry

  /**
   * The left edge that centres a popup of `width` on a screen of
   * `screenWidth`, allowing 10 pixels of border on each side: the space to the
   * left of the bordered popup equals the space to its right.
   */
  function CentredLeft(screenWidth: int, width: int): (left: HalfNumber)
    ensures left + 10.0 == screenWidth as real - (left + width as real + 10.0)
  {
    var x := screenWidth as real / 2.0 - (width as real / 2.0 + 10.0);
    assert 2.0 * x == (screenWidth - width - 20) as real;
    assert (2.0 * x).Floor == screenWidth - width - 20;
    x
  }

  /**
   * The top edge that centres a popup of `height` on a screen of
   * `screenHeight`, allowing 50 pixels above and below it for the title and
   * status bars.
   */
  function CentredTop(screenHeight: int, height: int): (top: HalfNumber)
    ensures top + 50.0 == screenHeight as real - (top + height as real + 50.0)
  {
    var y := screenHeight as real / 2.0 - (height as real / 2.0 + 50.0);
    assert 2.0 * y == (screenHeight - height - 100) as real;
    assert (2.0 * y).Floor == screenHeight - height - 100;
    y
  }

  /** The default 626 x 436 popup on a 1920 x 1080 screen sits at (637, 272). */
  lemma CentredOnFullHd()
    ensures CentredLeft(1920, DefaultPopup.width) == 637.0
    ensures CentredTop(1080, DefaultPopup.height) == 272.0
  {
  }

  /** An odd screen size puts the popup at a half pixel. */
  lemma HalfPixelOnOddScreen()
    ensures CentredLeft(1367, DefaultPopup.width) == 360.5
  {
  }

  // ---------------------------------------------------------------------------
  // The feature string

  type Entry = (string, string)

  function YesNo(b: bool): string
  {
    if b then "yes" else "no"
  }

  /** The entries of the feature string, in the order `_openSharer` writes them. */
  function FeatureEntries(p: Popup): seq<Entry>
  {
    [ ("status", YesNo(p.status)),
      ("height", IntText(p.height)),
      ("width", IntText(p.width)),
      ("resizable", YesNo(p.resizable)),
      ("left", NumberText(p.left)),
      ("top", NumberText(p.top)),
      ("screenX", NumberText(p.left)),
      ("screenY", NumberText(p.top)),
      ("toolbar", YesNo(p.toolbar)),
      ("menubar", YesNo(p.menubar)),
      ("scrollbars", YesNo(p.scrollbars)),
      ("location", YesNo(p.location)),
      ("directories", YesNo(p.directories)) ]
  }

  /** Each entry written as `key=value`. */
  function EntryTexts(es: seq<Entry>): (r: seq<string>)
    ensures |r| == |es|
  {
    seq(|es|, i requires 0 <= i < |es| => es[i].0 + "=" + es[i].1)
  }

  /** Entries written as `key=value`, separated by commas. */
  function Render(es: seq<Entry>): string
  {
    Join(EntryTexts(es), ",")
  }

  /** The third argument of `window.open`. */
  function Features(p: Popup): string
  {
    Render(FeatureEntries(p))
  }

  /** Reads a `key=value` entry; the value is empty when there is no `=`. */
  function ParseEntry(t: string): Entry
  {
    var kv := Split(t, '=');
    (kv[0], if |kv| >= 2 then kv[1] else [])
  }

  /** Reads a feature string back into its entries. */
  function ParseFeatures(s: string): (r: seq<Entry>)
    ensures |r| == |Split(s, ',')|
  {
    var parts := Split(s, ',');
    seq(|parts|, i requires 0 <= i < |parts| => ParseEntry(parts[i]))
  }

  /** Text that can stand as a key or a value. */
  predicate Clean(s: string)
  {
    ',' !in s && '=' !in s
  }

  /** An entry reads back as itself. */
  lemma {:induction false} ParseEntryText(k: string, v: string)
    requires Clean(k) && Clean(v)
    ensures ParseEntry(k + "=" + v) == (k, v)
  {
    SplitPiece(k, '=', v);
    SplitPiece(v, '=', []);
    assert k + "=" + v == k + ['='] + v;
  }

  /** Reading a rendered list of entries gives the entries back. */
  lemma {:induction false} ParseRender(es: seq<Entry>)
    requires |es| >= 1
    requires forall i :: 0 <= i < |es| ==> Clean(es[i].0) && Clean(es[i].1)
    ensures ParseFeatures(Render(es)) == es
  {
    var texts := EntryTexts(es);
    forall i | 0 <= i < |texts|
      ensures ',' !in texts[i]
    {
      assert texts[i] == es[i].0 + "=" + es[i].1;
    }
    SplitJoin(texts, ',');
    assert Split(Render(es), ',') == texts;
    forall i | 0 <= i < |es|
      ensures ParseFeatures(Render(es))[i] == es[i]
    {
      ParseEntryText(es[i].0, es[i].1);
    }
  }

  /** The keys of the feature string are clean. */
  lemma SizeKeysClean()
    ensures Clean("status") && Clean("height") && Clean("width") && Clean("resizable")
  {
  }

  lemma PositionKeysClean()
    ensures Clean("left") && Clean("top") && Clean("screenX") && Clean("screenY")
  {
  }

  lemma BarKeysClean()
    ensures Clean("toolbar") && Clean("menubar") && Clean("scrollbars")
    ensures Clean("location") && Clean("directories")
  {
  }

  /** The values of the feature string are clean. */
  lemma {:induction false} ValuesClean(p: Popup)
    ensures Clean(YesNo(true)) && Clean(YesNo(false))
    ensures Clean(IntText(p.height)) && Clean(IntText(p.width))
    ensures Clean(NumberText(p.left)) && Clean(NumberText(p.top))
  {
    IntTextRoundTrip(p.height);
    IntTextRoundTrip(p.width);
    NumberTextRoundTrip(p.left);
    NumberTextRoundTrip(p.top);
  }

  /** Every key and value of the feature string is clean. */
  lemma {:induction false} FeatureEntriesClean(p: Popup)
    ensures forall i :: 0 <= i < |FeatureEntries(p)| ==> Clean(FeatureEntries(p)[i].0) && Clean(FeatureEntries(p)[i].1)
  {
    SizeKeysClean();
    PositionKeysClean();
    BarKeysClean();
    ValuesClean(p);
  }

  /** A flag reads `yes` exactly when it is set, and `no` otherwise. */
  predicate FlagText(v: string, b: bool)
  {
    (v == "yes" <==> b) && (v == "no" <==> !b)
  }

  lemma YesNoFlag(b: bool)
    ensures FlagText(YesNo(b), b)
  {
  }

  /** A number entry reads back as `x`. */
  predicate NumberValue(v: string, x: real)
  {
    IsNumberText(v) && ParseNumber(v) == x
  }

  /** Thirteen entries with fixed keys in a fixed order. */
  predicate KeysInOrder(r: seq<Entry>)
  {
    && |r| == 13
    && r[0].0 == "status" && r[1].0 == "height" && r[2].0 == "width" && r[3].0 == "resizable"
    && r[4].0 == "left" && r[5].0 == "top" && r[6].0 == "screenX" && r[7].0 == "screenY"
    && r[8].0 == "toolbar" && r[9].0 == "menubar" && r[10].0 == "scrollbars"
    && r[11].0 == "location" && r[12].0 == "directories"
  }

  /** Each flag entry reads `yes` exactly when the popup's flag is set. */
  predicate FlagsOf(r: seq<Entry>, p: Popup)
    requires |r| == 13
  {
    && FlagText(r[0].1, p.status) && FlagText(r[3].1, p.resizable)
    && FlagText(r[8].1, p.toolbar) && FlagText(r[9].1, p.menubar) && FlagText(r[10].1, p.scrollbars)
    && FlagText(r[11].1, p.location) && FlagText(r[12].1, p.directories)
  }

  /** The size reads back as the popup's width and height. */
  predicate SizeOf(r: seq<Entry>, p: Popup)
    requires |r| == 13
  {
    NumberValue(r[1].1, p.height as real) && NumberValue(r[2].1, p.width as real)
  }

  /** The position reads back as the popup's left and top; `screenX` and `screenY` repeat them. */
  predicate PositionOf(r: seq<Entry>, p: Popup)
    requires |r| == 13
  {
    && NumberValue(r[4].1, p.left) && NumberValue(r[5].1, p.top)
    && r[6].1 == r[4].1 && r[7].1 == r[5].1
  }

  /** What the entries of a feature string say about `p`. */
  predicate Describes(r: seq<Entry>, p: Popup)
  {
    KeysInOrder(r) && FlagsOf(r, p) && SizeOf(r, p) && PositionOf(r, p)
  }

  lemma EntryKeys(p: Popup)
    ensures KeysInOrder(FeatureEntries(p))
  {
  }

  lemma {:induction false} EntryFlags(p: Popup)
    ensures FlagsOf(FeatureEntries(p), p)
  {
    YesNoFlag(p.status);
    YesNoFlag(p.resizable);
    YesNoFlag(p.toolbar);
    YesNoFlag(p.menubar);
    YesNoFlag(p.scrollbars);
    YesNoFlag(p.location);
    YesNoFlag(p.directories);
  }

  lemma IntValue(n: int)
    ensures NumberValue(IntText(n), n as real)
  {
    IntTextRoundTrip(n);
  }

  lemma HalfValue(x: HalfNumber)
    ensures NumberValue(NumberText(x), x)
  {
    NumberTextRoundTrip(x);
  }

  lemma {:induction false} EntrySize(p: Popup)
    ensures SizeOf(FeatureEntries(p), p)
  {
    IntValue(p.height);
    IntValue(p.width);
  }

  lemma {:induction false} EntryPosition(p: Popup)
    ensures PositionOf(FeatureEntries(p), p)
  {
    HalfValue(p.left);
    HalfValue(p.top);
  }

  /** Reading the feature string back gives entries that describe the popup. */
  lemma {:induction false} FeatureString(p: Popup)
    ensures ParseFeatures(Features(p)) == FeatureEntries(p)
    ensures Describes(ParseFeatures(Features(p)), p)
  {
    FeatureEntriesClean(p);
    ParseRender(FeatureEntries(p));
    EntryKeys(p);
    EntryFlags(p);
    EntrySize(p);
    EntryPosition(p);
  }
}
