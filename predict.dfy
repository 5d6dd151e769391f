/**
 * The prediction panel (frontend/src/predict_frame.py): a fixed table of
 * eleven categories with drawn percentages, the label text shown for the
 * coin picked on the segmented button, and the text exported by "Save".
 * The random draws, the file dialog and the widgets are outside the model:
 * the draws and the chosen path are parameters, and the label is a field
 * holding its text.
 */
module Predict {
  import opened Common
  import opened Text

  /** The coins of the segmented button, in button order. */
  const Coins: seq<string> := ["Human", "Letter", "Animal", "Sexual"]

  /** The label of each of the eleven categories. */
  const CategoryNames: seq<string> := ["Observer", "Decider", "Preferences", "Observer", "Decider",
    "Energy Animal", "Info Animal", "Dominant Animal", "Introverted vs Extraverted", "Sensory",
    "Extraverted Decider"]

  /** The category value of each of the eleven categories. */
  const CategoryCodes: seq<string> := ["Oi", "Di", "OO", "Si", "Ti", "Sleep", "Consume", "Info", "Extro",
    "modality0", "modality1"]

  /** Bounds of `random.randint(55, 90)`, both included. */
  const DrawLow: int := 55
  const DrawHigh: int := 90

  /** Eleven draws of `random.randint(55, 90)`. */
  predicate ValidDraws(draws: seq<int>) {
    |draws| == 11 && forall i :: 0 <= i < |draws| ==> DrawLow <= draws[i] <= DrawHigh
  }

  /** `get_names`: the coins and the category labels. */
  function GetNames(): (r: (seq<string>, seq<string>))
    ensures |r.0| == 4 && |r.1| == 11
    ensures forall k, l :: 0 <= k < l < 4 ==> r.0[k] != r.0[l]
  {
    (Coins, CategoryNames)
  }

  /** `get_data`: the categories, and the draws as their values. */
  function GetData(draws: seq<int>): (r: (seq<string>, seq<int>))
    requires ValidDraws(draws)
    ensures |r.0| == 11 && |r.1| == 11
    ensures forall i :: 0 <= i < 11 ==> DrawLow <= r.1[i] <= DrawHigh && r.1[i] == draws[i]
  {
    (CategoryCodes, draws)
  }

  /**
   * The panel's data once `get_names` and `get_data` have been called: the
   * label, category and value of each of the eleven entries.
   */
  datatype PanelData = PanelData(names: seq<string>, categories: seq<string>, values: seq<int>)

  predicate WellSized(t: PanelData) {
    |t.names| == 11 && |t.categories| == 11 && |t.values| == 11
  }

  /** The table built from `get_names` and `get_data` for the given draws. */
  function PanelTable(draws: seq<int>): (t: PanelData)
    requires ValidDraws(draws)
    ensures WellSized(t)
    ensures forall i :: 0 <= i < 11 ==> DrawLow <= t.values[i] <= DrawHigh
  {
    var (_, categoryName) := GetNames();
    var (categories, values) := GetData(draws);
    PanelData(categoryName, categories, values)
  }

  /** One line of text: `'<name>': <category> <value>%`. */
  function ItemLine(name: string, category: string, value: int): (r: string)
    ensures '\n' !in name && '\n' !in category ==> '\n' !in r
  {
    "'" + name + "': " + category + " " + IntToString(value) + "%"
  }

  /** Every line ends with a percent sign. */
  lemma ItemEndsWithPercent(t: PanelData, i: int)
    requires WellSized(t) && 0 <= i < 11
    ensures |Item(t, i)| >= 1 && Item(t, i)[|Item(t, i)| - 1] == '%'
  {
  }

  /** The line of entry `i`. */
  function Item(t: PanelData, i: int): string
    requires WellSized(t) && 0 <= i < 11
  {
    ItemLine(t.names[i], t.categories[i], t.values[i])
  }

  /** What a selection shows: the label text and the data handed to the chart. */
  datatype Shown = Shown(text: string, categories: seq<string>, values: seq<int>)

  /** A value that is no coin leaves `text` unassigned, so the callback raises. */
  datatype CallbackError = UnboundText(value: string)

  /**
   * Coin `k` shows categories `DisplayBounds[k]` up to, not including,
   * `DisplayBounds[k + 1]`.
   */
  const DisplayBounds: seq<int> := [0, 3, 5, 9, 11]

  /**
   * The body of `segmented_button_callback` once the names and data are
   * fetched, up to configuring the label.
   */
  function Selection(value: string, t: PanelData): (r: Result<Shown, CallbackError>)
    requires WellSized(t)
    ensures r.Err? <==> value !in Coins
    ensures r.Err? ==> r.error == UnboundText(value)
  {
    var coins := Coins;
    var (categories, values) := (t.categories, t.values);
    var line := i requires 0 <= i < 11 => Item(t, i);
    if value == coins[0] then
      Ok(Shown(line(0) + "\n\n" + line(1) + "\n\n" + line(2),
               [categories[0], categories[1], categories[2]],
               [values[0], values[1], values[2]]))
    else if value == coins[1] then
      Ok(Shown(line(3) + "\n\n" + line(4),
               [categories[3], categories[4]],
               [values[3], values[4]]))
    else if value == coins[2] then
      Ok(Shown(line(5) + "\n\n" + line(6) + "\n\n" + line(7) + "\n\n" + line(8),
               [categories[5], categories[6], categories[7], categories[8]],
               [values[5], values[6], values[7], values[8]]))
    else if value == coins[3] then
      Ok(Shown(line(9) + "\n\n" + line(10),
               [categories[9], categories[10]],
               [values[9], values[10]]))
    else
      Err(UnboundText(value))
  }

  /** The four coins are different strings. */
  lemma CoinsDistinct()
    ensures forall k, l :: 0 <= k < l < 4 ==> Coins[k] != Coins[l]
  {
    assert Coins[0][0] == 'H' && Coins[1][0] == 'L' && Coins[2][0] == 'A' && Coins[3][0] == 'S';
  }

  /**
   * Coin `k` hands the chart exactly the categories and values from
   * `DisplayBounds[k]` up to `DisplayBounds[k + 1]`.
   */
  lemma SelectionShowsSlice(t: PanelData, k: int)
    requires WellSized(t) && 0 <= k < 4
    ensures Selection(Coins[k], t).Ok?
    ensures Selection(Coins[k], t).value.categories == t.categories[DisplayBounds[k]..DisplayBounds[k + 1]]
    ensures Selection(Coins[k], t).value.values == t.values[DisplayBounds[k]..DisplayBounds[k + 1]]
  {
    CoinsDistinct();
    var c, v := t.categories, t.values;
    if k == 0 {
      assert c[0..3] == [c[0], c[1], c[2]] && v[0..3] == [v[0], v[1], v[2]];
    } else if k == 1 {
      assert c[3..5] == [c[3], c[4]] && v[3..5] == [v[3], v[4]];
    } else if k == 2 {
      assert c[5..9] == [c[5], c[6], c[7], c[8]] && v[5..9] == [v[5], v[6], v[7], v[8]];
    } else {
      assert c[9..11] == [c[9], c[10]] && v[9..11] == [v[9], v[10]];
    }
  }

  /**
   * On the panel, coin `k` charts its slice of the fixed category values and
   * of the draws.
   */
  lemma PanelSelection(draws: seq<int>, k: int)
    requires ValidDraws(draws) && 0 <= k < 4
    ensures Selection(Coins[k], PanelTable(draws)).Ok?
    ensures Selection(Coins[k], PanelTable(draws)).value.categories == CategoryCodes[DisplayBounds[k]..DisplayBounds[k + 1]]
    ensures Selection(Coins[k], PanelTable(draws)).value.values == draws[DisplayBounds[k]..DisplayBounds[k + 1]]
  {
    SelectionShowsSlice(PanelTable(draws), k);
  }

  /** The lines of categories `lo` up to, not including, `hi`. */
  function Items(t: PanelData, lo: int, hi: int): seq<string>
    requires WellSized(t) && 0 <= lo <= hi <= 11
  {
    seq(hi - lo, j requires 0 <= j < hi - lo => Item(t, lo + j))
  }

  /** The lines from `lo` up to `lo + 1` are line `lo` alone. */
  lemma ItemsSingle(t: PanelData, lo: int)
    requires WellSized(t) && 0 <= lo < 11
    ensures Items(t, lo, lo + 1) == [Item(t, lo)]
  {
    assert Items(t, lo, lo + 1)[0] == Item(t, lo);
  }

  /** The lines up to `hi` are those up to `hi - 1` and then line `hi - 1`. */
  lemma ItemsSnoc(t: PanelData, lo: int, hi: int)
    requires WellSized(t) && 0 <= lo < hi <= 11
    ensures Items(t, lo, hi) == Items(t, lo, hi - 1) + [Item(t, hi - 1)]
  {
    assert Items(t, lo, hi) == Items(t, lo, hi - 1) + [Item(t, hi - 1)];
  }

  /** Joining lines `lo` up to `hi` adds one blank-line separator and line `hi - 1`. */
  lemma JoinItemsSnoc(t: PanelData, lo: int, hi: int)
    requires WellSized(t) && 0 <= lo < hi - 1 && hi <= 11
    ensures Join(Items(t, lo, hi), "\n\n") == Join(Items(t, lo, hi - 1), "\n\n") + "\n\n" + Item(t, hi - 1)
  {
    ItemsSnoc(t, lo, hi);
    JoinSnoc(Items(t, lo, hi - 1), Item(t, hi - 1), "\n\n");
  }

  /** The label for coin `k` is its categories' lines joined by blank lines. */
  lemma LabelTextIsJoin(t: PanelData, k: int)
    requires WellSized(t) && 0 <= k < 4
    ensures Selection(Coins[k], t).Ok?
    ensures Selection(Coins[k], t).value.text == Join(Items(t, DisplayBounds[k], DisplayBounds[k + 1]), "\n\n")
  {
    CoinsDistinct();
    var lo, hi := DisplayBounds[k], DisplayBounds[k + 1];
    ItemsSingle(t, lo);
    forall m | lo + 1 < m <= hi
      ensures Join(Items(t, lo, m), "\n\n") == Join(Items(t, lo, m - 1), "\n\n") + "\n\n" + Item(t, m - 1)
    {
      JoinItemsSnoc(t, lo, m);
    }
  }

  /** The label ends with the line of its coin's last category, so with a percent sign. */
  lemma LabelTextEndsWithLast(t: PanelData, k: int)
    requires WellSized(t) && 0 <= k < 4
    ensures var text := Selection(Coins[k], t).value.text;
            var last := Item(t, DisplayBounds[k + 1] - 1);
            |last| <= |text| && text[|text| - |last|..] == last && text[|text| - 1] == '%'
  {
    LabelTextIsJoin(t, k);
    var lo, hi := DisplayBounds[k], DisplayBounds[k + 1];
    var xs := Items(t, lo, hi);
    var last := Item(t, hi - 1);
    JoinEndsWithLast(xs, "\n\n");
    assert xs[|xs| - 1] == last;
    ItemEndsWithPercent(t, hi - 1);
    var text := Join(xs, "\n\n");
    assert text[|text| - 1] == text[|text| - |last|..][|last| - 1];
  }

  /** The coin whose label shows category `i`. */
  function DisplayCoinOf(i: int): (k: int)
    requires 0 <= i < 11
    ensures 0 <= k < 4 && DisplayBounds[k] <= i < DisplayBounds[k + 1]
  {
    if i < DisplayBounds[1] then 0
    else if i < DisplayBounds[2] then 1
    else if i < DisplayBounds[3] then 2
    else 3
  }

  /** The four labels split the eleven categories: each is shown under exactly one coin. */
  lemma DisplayPartition()
    ensures DisplayBounds[0] == 0 && DisplayBounds[4] == 11
    ensures forall k :: 0 <= k < 4 ==> DisplayBounds[k] < DisplayBounds[k + 1]
    ensures forall i, k :: 0 <= i < 11 && 0 <= k < 4 ==>
      (DisplayBounds[k] <= i < DisplayBounds[k + 1] <==> k == DisplayCoinOf(i))
  {
  }

  /** The first line of the export. */
  function HeaderLine(predictionMethod: string): string {
    "Predicted coins (method for prediction -> " + predictionMethod + "):"
  }

  /** The header is one line when the method's name is. */
  lemma HeaderHasNoNewline(predictionMethod: string)
    requires '\n' !in predictionMethod
    ensures SingleLines([HeaderLine(predictionMethod)])
  {
    var prefix := "Predicted coins (method for prediction -> ";
    assert forall j :: 0 <= j < |prefix| ==> prefix[j] != '\n';
  }

  /** The coin whose heading `save` writes just before item `i`, if any. */
  function HeadingCoin(i: int): Option<int> {
    if i == 0 then Some(0)
    else if i == 3 then Some(1)
    else if i == 7 then Some(2)
    else if i == 9 then Some(3)
    else None
  }

  /** The text `save` writes before item `i`: a blank line and `<coin> coins:`. */
  function Heading(i: int): string {
    match HeadingCoin(i)
    case Some(k) => "\n" + Coins[k] + " coins:\n"
    case None => ""
  }

  /** What one iteration of the loop in `save` appends. */
  function ExportEntry(t: PanelData, i: int): string
    requires WellSized(t) && 0 <= i < 11
  {
    Heading(i) + Item(t, i) + "\n"
  }

  /** The export after the first `n` iterations of the loop in `save`. */
  function ExportPrefix(predictionMethod: string, t: PanelData, n: int): string
    requires WellSized(t) && 0 <= n <= 11
  {
    if n == 0 then HeaderLine(predictionMethod) + "\n"
    else ExportPrefix(predictionMethod, t, n - 1) + ExportEntry(t, n - 1)
  }

  /** Appending an entry's heading and then its line ends one iteration. */
  lemma ExportStep(predictionMethod: string, t: PanelData, i: int, heading: string, item: string)
    requires WellSized(t) && 0 <= i < 11
    requires heading == Heading(i) && item == Item(t, i)
    ensures ExportPrefix(predictionMethod, t, i) + heading + (item + "\n") == ExportPrefix(predictionMethod, t, i + 1)
  {
    var before := ExportPrefix(predictionMethod, t, i);
    assert before + heading + (item + "\n") == before + (heading + item + "\n");
  }

  /** The whole text `save` writes. */
  function ExportText(predictionMethod: string, t: PanelData): (r: string)
    requires WellSized(t)
    ensures var h := HeaderLine(predictionMethod) + "\n";
            |h| <= |r| && r[..|h|] == h
    ensures r[|r| - 1] == '\n'
  {
    ExportStartsWithHeader(predictionMethod, t, 11);
    ExportPrefix(predictionMethod, t, 11)
  }

  /** The lines `save` writes for item `i`: a blank line and a heading first, if any. */
  function EntryLines(t: PanelData, i: int): seq<string>
    requires WellSized(t) && 0 <= i < 11
  {
    match HeadingCoin(i)
    case Some(k) => ["", Coins[k] + " coins:", Item(t, i)]
    case None => [Item(t, i)]
  }

  /** The lines of the export after `n` iterations. */
  function ExportLinesPrefix(predictionMethod: string, t: PanelData, n: int): seq<string>
    requires WellSized(t) && 0 <= n <= 11
  {
    if n == 0 then [HeaderLine(predictionMethod)]
    else ExportLinesPrefix(predictionMethod, t, n - 1) + EntryLines(t, n - 1)
  }

  /** An entry with a heading: a blank line, the heading and the item, each ended by a new line. */
  lemma HeadedEntryTerminated(c: string, item: string)
    ensures "\n" + c + " coins:\n" + item + "\n" == Terminated(["", c + " coins:", item])
  {
    var lines := ["", c + " coins:", item];
    assert lines[1..] == [c + " coins:", item] && lines[1..][1..] == [item];
    assert Terminated([item]) == item + "\n";
    assert "\n" + c + " coins:\n" + item + "\n" == "" + "\n" + (c + " coins:" + "\n" + (item + "\n"));
  }

  /** An entry without a heading: the item ended by a new line. */
  lemma PlainEntryTerminated(item: string)
    ensures "" + item + "\n" == Terminated([item])
  {
    assert [item][1..] == [];
  }

  /** One iteration appends the lines of its entry, each ended by a new line. */
  lemma EntryTerminated(t: PanelData, i: int)
    requires WellSized(t) && 0 <= i < 11
    ensures ExportEntry(t, i) == Terminated(EntryLines(t, i))
  {
    match HeadingCoin(i)
    case None =>
      PlainEntryTerminated(Item(t, i));
    case Some(k) =>
      HeadedEntryTerminated(Coins[k], Item(t, i));
  }

  /** Each iteration appends its lines, each ended by a new line. */
  lemma {:induction false} ExportPrefixTerminated(predictionMethod: string, t: PanelData, n: int)
    requires WellSized(t) && 0 <= n <= 11
    ensures ExportPrefix(predictionMethod, t, n) == Terminated(ExportLinesPrefix(predictionMethod, t, n))
  {
    if n == 0 {
      assert Terminated([HeaderLine(predictionMethod)]) == HeaderLine(predictionMethod) + "\n";
    } else {
      ExportPrefixTerminated(predictionMethod, t, n - 1);
      EntryTerminated(t, n - 1);
      TerminatedAppend(ExportLinesPrefix(predictionMethod, t, n - 1), EntryLines(t, n - 1));
    }
  }

  /**
   * Coin `k`'s heading comes before item `SaveBounds[k]`, and its group runs
   * up to, not including, item `SaveBounds[k + 1]`.
   */
  const SaveBounds: seq<int> := [0, 3, 7, 9, 11]

  /** The second line of coin `k`'s heading. */
  function HeadingLine(k: int): string
    requires 0 <= k < 4
  {
    Coins[k] + " coins:"
  }

  /** The lines of coin `k`'s group in the export: a blank line, the heading, its items. */
  function Group(t: PanelData, k: int): seq<string>
    requires WellSized(t) && 0 <= k < 4
  {
    ["", HeadingLine(k)] + Items(t, SaveBounds[k], SaveBounds[k + 1])
  }

  /** The export's lines, as the file shows them: the header, then the four groups. */
  function ExpectedExportLines(predictionMethod: string, t: PanelData): seq<string>
    requires WellSized(t)
  {
    [HeaderLine(predictionMethod)] + Group(t, 0) + Group(t, 1) + Group(t, 2) + Group(t, 3)
  }

  /** Within a group, the loop appends the heading once and then one line per item. */
  lemma {:induction false} PrefixWithinGroup(predictionMethod: string, t: PanelData, k: int, hi: int)
    requires WellSized(t) && 0 <= k < 4 && SaveBounds[k] < hi <= SaveBounds[k + 1]
    ensures ExportLinesPrefix(predictionMethod, t, hi) ==
      ExportLinesPrefix(predictionMethod, t, SaveBounds[k]) + (["", HeadingLine(k)] + Items(t, SaveBounds[k], hi))
  {
    var lo := SaveBounds[k];
    var before := ExportLinesPrefix(predictionMethod, t, lo);
    if hi == lo + 1 {
      assert HeadingCoin(lo) == Some(k);
      ItemsSingle(t, lo);
    } else {
      PrefixWithinGroup(predictionMethod, t, k, hi - 1);
      assert HeadingCoin(hi - 1) == None;
      ItemsSnoc(t, lo, hi);
      var head := ["", HeadingLine(k)];
      assert before + (head + Items(t, lo, hi - 1)) + [Item(t, hi - 1)]
          == before + (head + (Items(t, lo, hi - 1) + [Item(t, hi - 1)]));
    }
  }

  lemma ExportLinesExpected(predictionMethod: string, t: PanelData)
    requires WellSized(t)
    ensures ExportLinesPrefix(predictionMethod, t, 11) == ExpectedExportLines(predictionMethod, t)
  {
    PrefixWithinGroup(predictionMethod, t, 0, 3);
    PrefixWithinGroup(predictionMethod, t, 1, 7);
    PrefixWithinGroup(predictionMethod, t, 2, 9);
    PrefixWithinGroup(predictionMethod, t, 3, 11);
  }

  /** No label or category of the table contains a new line. */
  ghost predicate NoNewlines(t: PanelData)
    requires WellSized(t)
  {
    forall i :: 0 <= i < 11 ==> '\n' !in t.names[i] && '\n' !in t.categories[i]
  }

  /** The panel's fixed labels and categories have no new line. */
  lemma PanelTableNoNewlines(draws: seq<int>)
    requires ValidDraws(draws)
    ensures NoNewlines(PanelTable(draws))
  {
  }

  /** No entry line contains a new line. */
  lemma ItemHasNoNewline(t: PanelData, i: int)
    requires WellSized(t) && NoNewlines(t) && 0 <= i < 11
    ensures '\n' !in Item(t, i)
  {
  }

  /** No heading line contains a new line. */
  lemma HeadingHasNoNewline(k: int)
    requires 0 <= k < 4
    ensures SingleLines(["", HeadingLine(k)])
  {
    assert '\n' !in Coins[k];
    assert '\n' !in " coins:";
  }

  /** No item line contains a new line. */
  lemma ItemsHaveNoNewline(t: PanelData, lo: int, hi: int)
    requires WellSized(t) && NoNewlines(t) && 0 <= lo <= hi <= 11
    ensures SingleLines(Items(t, lo, hi))
  {
    var items := Items(t, lo, hi);
    forall j | 0 <= j < |items| ensures '\n' !in items[j] {
      ItemHasNoNewline(t, lo + j);
    }
  }

  /** No line of a group contains a new line. */
  lemma GroupHasNoNewline(t: PanelData, k: int)
    requires WellSized(t) && NoNewlines(t) && 0 <= k < 4
    ensures SingleLines(Group(t, k))
  {
    HeadingHasNoNewline(k);
    ItemsHaveNoNewline(t, SaveBounds[k], SaveBounds[k + 1]);
    SingleLinesAppend(["", HeadingLine(k)], Items(t, SaveBounds[k], SaveBounds[k + 1]));
  }

  /**
   * Read line by line, the export is the header, then for each coin a blank
   * line, `<coin> coins:` and the lines of its items, and a final new line.
   */
  lemma ExportLines(predictionMethod: string, t: PanelData)
    requires WellSized(t) && NoNewlines(t)
    requires '\n' !in predictionMethod
    ensures Split(ExportText(predictionMethod, t)) == ExpectedExportLines(predictionMethod, t) + [""]
  {
    ExportPrefixTerminated(predictionMethod, t, 11);
    ExportLinesExpected(predictionMethod, t);
    var header := [HeaderLine(predictionMethod)];
    HeaderHasNoNewline(predictionMethod);
    GroupHasNoNewline(t, 0);
    GroupHasNoNewline(t, 1);
    GroupHasNoNewline(t, 2);
    GroupHasNoNewline(t, 3);
    SingleLinesAppend(header, Group(t, 0));
    SingleLinesAppend(header + Group(t, 0), Group(t, 1));
    SingleLinesAppend(header + Group(t, 0) + Group(t, 1), Group(t, 2));
    SingleLinesAppend(header + Group(t, 0) + Group(t, 1) + Group(t, 2), Group(t, 3));
    var xs := ExpectedExportLines(predictionMethod, t);
    SplitTerminated(xs);
  }

  /** The export begins with its header line. */
  lemma {:induction false} ExportStartsWithHeader(predictionMethod: string, t: PanelData, n: int)
    requires WellSized(t) && 0 <= n <= 11
    ensures var h := HeaderLine(predictionMethod) + "\n";
            var e := ExportPrefix(predictionMethod, t, n);
            |h| <= |e| && e[..|h|] == h
  {
    if n > 0 {
      ExportStartsWithHeader(predictionMethod, t, n - 1);
      PrefixKept(ExportPrefix(predictionMethod, t, n - 1), ExportEntry(t, n - 1), HeaderLine(predictionMethod) + "\n");
    }
  }

  /** Appending to a string keeps what it starts with. */
  lemma PrefixKept(s: string, x: string, h: string)
    requires |h| <= |s| && s[..|h|] == h
    ensures |h| <= |s + x| && (s + x)[..|h|] == h
  {
    assert (s + x)[..|h|] == s[..|h|];
  }

  /** The coin whose heading precedes item `i` in the export. */
  function SaveCoinOf(i: int): (k: int)
    requires 0 <= i < 11
    ensures 0 <= k < 4
  {
    if HeadingCoin(i).Some? then HeadingCoin(i).value else SaveCoinOf(i - 1)
  }

  /**
   * The export groups items differently from the labels: items 5 and 6
   * ("Energy Animal", "Info Animal") are shown under Animal but exported
   * under Letter; every other item is grouped the same way.
   */
  lemma SaveGroupingDiffersFromDisplay()
    ensures forall i :: 0 <= i < 11 ==> (SaveCoinOf(i) != DisplayCoinOf(i) <==> i == 5 || i == 6)
    ensures SaveCoinOf(5) == 1 && DisplayCoinOf(5) == 2
  {
  }

  /** The file the save writes: where and what. */
  datatype FileWrite = FileWrite(path: string, contents: string)

  /** What `show_chart` hands to the chart component. */
  datatype ChartRequest = ChartRequest(categories: seq<string>, values: seq<int>, selectedOption: string)

  class PredictFrame {
    /** The prediction method named in the export header. */
    const predictionMethod: string
    /** The text of the label under the segmented button. */
    var labelText: string

    /** Builds the panel and shows the first coin, "Human". */
    constructor (predictionMethod: string, draws: seq<int>)
      requires ValidDraws(draws)
      ensures this.predictionMethod == predictionMethod
      ensures labelText == Selection(Coins[0], PanelTable(draws)).value.text
    {
      this.predictionMethod := predictionMethod;
      labelText := Selection(Coins[0], PanelTable(draws)).value.text;
    }

    /**
     * `segmented_button_callback`: fetch the names and fresh data, show the
     * coin's lines on the label and return its categories and values.
     */
    method SegmentedButtonCallback(value: string, draws: seq<int>) returns (r: Result<(seq<string>, seq<int>), CallbackError>)
      requires ValidDraws(draws)
      modifies this`labelText
      ensures r.Err? <==> value !in Coins
      ensures match Selection(value, PanelTable(draws))
        case Ok(shown) => labelText == shown.text && r == Ok((shown.categories, shown.values))
        case Err(e) => labelText == old(labelText) && r == Err(e)
    {
      var selection := Selection(value, PanelTable(draws));
      match selection {
        case Ok(shown) =>
          labelText := shown.text;
          r := Ok((shown.categories, shown.values));
        case Err(e) =>
          r := Err(e);
      }
    }

    /** `show_chart`: refresh the label for the selected coin and hand its data to the chart. */
    method ShowChart(selectedOption: string, draws: seq<int>) returns (r: Result<ChartRequest, CallbackError>)
      requires ValidDraws(draws)
      modifies this`labelText
      ensures match Selection(selectedOption, PanelTable(draws))
        case Ok(shown) =>
          labelText == shown.text && r == Ok(ChartRequest(shown.categories, shown.values, selectedOption))
        case Err(e) => labelText == old(labelText) && r == Err(e)
    {
      var data := SegmentedButtonCallback(selectedOption, draws);
      match data {
        case Ok((categories, values)) =>
          r := Ok(ChartRequest(categories, values, selectedOption));
        case Err(e) =>
          r := Err(e);
      }
    }

    /**
     * `save`: build the export text entry by entry, then write it to the
     * path the dialog returned, unless the dialog was cancelled (empty path).
     */
    method Save(draws: seq<int>, path: string) returns (written: Option<FileWrite>)
      requires ValidDraws(draws)
      ensures path == "" ==> written == None
      ensures path != "" ==> written == Some(FileWrite(path, ExportText(predictionMethod, PanelTable(draws))))
    {
      var (coins, categoryName) := GetNames();
      var (categories, values) := GetData(draws);
      ghost var t := PanelTable(draws);
      var resultStr := HeaderLine(predictionMethod) + "\n";
      for i := 0 to |categories|
        invariant resultStr == ExportPrefix(predictionMethod, t, i)
      {
        ghost var before := resultStr;
        if i == 0 {
          resultStr := resultStr + ("\n" + coins[0] + " coins:\n");
        } else if i == 3 {
          resultStr := resultStr + ("\n" + coins[1] + " coins:\n");
        } else if i == 7 {
          resultStr := resultStr + ("\n" + coins[2] + " coins:\n");
        } else if i == 9 {
          resultStr := resultStr + ("\n" + coins[3] + " coins:\n");
        }
        assert resultStr == before + Heading(i);
        resultStr := resultStr + (ItemLine(categoryName[i], categories[i], values[i]) + "\n");
        ExportStep(predictionMethod, t, i, Heading(i), Item(t, i));
      }
      if path == "" {
        written := None;
      } else {
        written := Some(FileWrite(path, resultStr));
      }
    }
  }
}
