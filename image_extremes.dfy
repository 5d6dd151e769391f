/**
 * `find_image_extremes` (backend/utils.py): a single pass over a directory
 * listing that keeps the dimensions of the smallest-area and largest-area
 * image among the files with an image extension. Decoding the images is
 * outside the model: each listed file comes with its (width, height).
 */
module ImageExtremes {
  import opened Common
  import opened Filenames

  /** Image dimensions, as PIL's `img.size`. */
  datatype Dims = Dims(width: nat, height: nat)

  function Area(d: Dims): nat {
    d.width * d.height
  }

  /** One directory entry: its file name and the size its image decodes to. */
  datatype Entry = Entry(name: string, size: Dims)

  predicate Qualifies(e: Entry) {
    HasImageExtension(e.name)
  }

  /** The pair `(min_dim, max_dim)`. */
  datatype Extremes = Extremes(smallest: Option<Dims>, largest: Option<Dims>)

  /** One iteration of the scan: strict comparisons, so a tie keeps the earlier entry. */
  function Step(acc: Extremes, e: Entry): Extremes {
    if !Qualifies(e) then acc
    else
      Extremes(
        if acc.smallest.None? || Area(e.size) < Area(acc.smallest.value) then Some(e.size) else acc.smallest,
        if acc.largest.None? || Area(e.size) > Area(acc.largest.value) then Some(e.size) else acc.largest)
  }

  /** The scan over a listing, in listing order, starting from `(None, None)`. */
  function Scan(listing: seq<Entry>): Extremes {
    if listing == [] then Extremes(None, None)
    else Step(Scan(listing[..|listing| - 1]), listing[|listing| - 1])
  }

  method FindImageExtremes(listing: seq<Entry>) returns (minDim: Option<Dims>, maxDim: Option<Dims>)
    ensures Extremes(minDim, maxDim) == Scan(listing)
  {
    minDim, maxDim := None, None;
    for i := 0 to |listing|
      invariant Extremes(minDim, maxDim) == Scan(listing[..i])
    {
      assert listing[..i + 1][..i] == listing[..i];
      assert Scan(listing[..i + 1]) == Step(Extremes(minDim, maxDim), listing[i]);
      var filename := listing[i].name;
      if HasImageExtension(filename) {
        var width, height := listing[i].size.width, listing[i].size.height;
        if minDim.None? || width * height < minDim.value.width * minDim.value.height {
          minDim := Some(Dims(width, height));
        }
        if maxDim.None? || width * height > maxDim.value.width * maxDim.value.height {
          maxDim := Some(Dims(width, height));
        }
      }
    }
    assert listing[..|listing|] == listing;
  }

  ghost predicate NoneQualifies(listing: seq<Entry>) {
    forall i :: 0 <= i < |listing| ==> !Qualifies(listing[i])
  }

  /** Both results are `None` exactly when no entry has an image extension. */
  lemma {:induction false} ScanNoneIff(listing: seq<Entry>)
    ensures Scan(listing).smallest.None? <==> NoneQualifies(listing)
    ensures Scan(listing).largest.None? <==> NoneQualifies(listing)
  {
    if listing != [] {
      var pre := listing[..|listing| - 1];
      ScanNoneIff(pre);
      assert forall i :: 0 <= i < |pre| ==> pre[i] == listing[i];
    }
  }

  /**
   * Entry `i` is the first qualifying entry of least area: no qualifying
   * entry is smaller, and every qualifying entry before it is strictly larger.
   */
  ghost predicate FirstSmallestAt(listing: seq<Entry>, i: int) {
    && 0 <= i < |listing|
    && Qualifies(listing[i])
    && (forall j :: 0 <= j < |listing| && Qualifies(listing[j]) ==> Area(listing[i].size) <= Area(listing[j].size))
    && (forall j :: 0 <= j < i && Qualifies(listing[j]) ==> Area(listing[j].size) > Area(listing[i].size))
  }

  /** Entry `i` is the first qualifying entry of greatest area. */
  ghost predicate FirstLargestAt(listing: seq<Entry>, i: int) {
    && 0 <= i < |listing|
    && Qualifies(listing[i])
    && (forall j :: 0 <= j < |listing| && Qualifies(listing[j]) ==> Area(listing[i].size) >= Area(listing[j].size))
    && (forall j :: 0 <= j < i && Qualifies(listing[j]) ==> Area(listing[j].size) < Area(listing[i].size))
  }

  /** Appending an entry that is not an image keeps the first smallest. */
  lemma SmallestSkip(pre: seq<Entry>, e: Entry, i: int)
    requires FirstSmallestAt(pre, i) && !Qualifies(e)
    ensures FirstSmallestAt(pre + [e], i)
  {
    assert forall j :: 0 <= j < |pre| ==> (pre + [e])[j] == pre[j];
  }

  /** Appending an image that is not strictly smaller keeps the first smallest. */
  lemma SmallestKeep(pre: seq<Entry>, e: Entry, i: int)
    requires FirstSmallestAt(pre, i) && Area(e.size) >= Area(pre[i].size)
    ensures FirstSmallestAt(pre + [e], i)
  {
    assert forall j :: 0 <= j < |pre| ==> (pre + [e])[j] == pre[j];
  }

  /** An image strictly smaller than every earlier image becomes the first smallest. */
  lemma SmallestNew(pre: seq<Entry>, e: Entry)
    requires Qualifies(e)
    requires forall j :: 0 <= j < |pre| && Qualifies(pre[j]) ==> Area(pre[j].size) > Area(e.size)
    ensures FirstSmallestAt(pre + [e], |pre|)
  {
    assert forall j :: 0 <= j < |pre| ==> (pre + [e])[j] == pre[j];
  }

  /**
   * The smallest result is the size of a qualifying entry, no qualifying
   * entry has a smaller area, and on equal areas the earliest entry wins.
   */
  lemma {:induction false} ScanSmallest(listing: seq<Entry>)
    ensures Scan(listing).smallest.Some? ==>
      exists i :: FirstSmallestAt(listing, i) && Scan(listing).smallest.value == listing[i].size
  {
    if listing != [] {
      var n := |listing|;
      var pre, e := listing[..n - 1], listing[n - 1];
      assert listing == pre + [e];
      var acc := Scan(pre);
      ScanSmallest(pre);
      ScanNoneIff(pre);
      if acc.smallest.None? {
        if Qualifies(e) {
          SmallestNew(pre, e);
        }
      } else {
        var i :| FirstSmallestAt(pre, i) && acc.smallest.value == pre[i].size;
        if !Qualifies(e) {
          SmallestSkip(pre, e, i);
        } else if Area(e.size) < Area(pre[i].size) {
          SmallestNew(pre, e);
        } else {
          SmallestKeep(pre, e, i);
        }
      }
    }
  }

  /** Appending an entry that is not an image keeps the first largest. */
  lemma LargestSkip(pre: seq<Entry>, e: Entry, i: int)
    requires FirstLargestAt(pre, i) && !Qualifies(e)
    ensures FirstLargestAt(pre + [e], i)
  {
    assert forall j :: 0 <= j < |pre| ==> (pre + [e])[j] == pre[j];
  }

  /** Appending an image that is not strictly larger keeps the first largest. */
  lemma LargestKeep(pre: seq<Entry>, e: Entry, i: int)
    requires FirstLargestAt(pre, i) && Area(e.size) <= Area(pre[i].size)
    ensures FirstLargestAt(pre + [e], i)
  {
    assert forall j :: 0 <= j < |pre| ==> (pre + [e])[j] == pre[j];
  }

  /** An image strictly larger than every earlier image becomes the first largest. */
  lemma LargestNew(pre: seq<Entry>, e: Entry)
    requires Qualifies(e)
    requires forall j :: 0 <= j < |pre| && Qualifies(pre[j]) ==> Area(pre[j].size) < Area(e.size)
    ensures FirstLargestAt(pre + [e], |pre|)
  {
    assert forall j :: 0 <= j < |pre| ==> (pre + [e])[j] == pre[j];
  }

  /**
   * The largest result is the size of a qualifying entry, no qualifying
   * entry has a larger area, and on equal areas the earliest entry wins.
   */
  lemma {:induction false} ScanLargest(listing: seq<Entry>)
    ensures Scan(listing).largest.Some? ==>
      exists i :: FirstLargestAt(listing, i) && Scan(listing).largest.value == listing[i].size
  {
    if listing != [] {
      var n := |listing|;
      var pre, e := listing[..n - 1], listing[n - 1];
      assert listing == pre + [e];
      var acc := Scan(pre);
      ScanLargest(pre);
      ScanNoneIff(pre);
      if acc.largest.None? {
        if Qualifies(e) {
          LargestNew(pre, e);
        }
      } else {
        var i :| FirstLargestAt(pre, i) && acc.largest.value == pre[i].size;
        if !Qualifies(e) {
          LargestSkip(pre, e, i);
        } else if Area(e.size) > Area(pre[i].size) {
          LargestNew(pre, e);
        } else {
          LargestKeep(pre, e, i);
        }
      }
    }
  }

  /** Two images of equal area: the first listed is both the smallest and the largest. */
  lemma TieKeepsFirst(a: Entry, b: Entry)
    requires Qualifies(a) && Qualifies(b) && Area(a.size) == Area(b.size)
    ensures Scan([a, b]) == Extremes(Some(a.size), Some(a.size))
  {
    assert [a, b][..1] == [a];
    assert [a][..0] == [];
    assert Scan([a]) == Extremes(Some(a.size), Some(a.size));
  }

  /** A 10x10 and a 100x50 image, in either order: the extremes are those two sizes. */
  lemma DistinctSizes(a: Entry, b: Entry)
    requires Qualifies(a) && Qualifies(b)
    requires a.size == Dims(10, 10) && b.size == Dims(100, 50)
    ensures Scan([a, b]) == Extremes(Some(a.size), Some(b.size))
    ensures Scan([b, a]) == Extremes(Some(a.size), Some(b.size))
  {
    assert [a, b][..1] == [a] && [b, a][..1] == [b];
    assert Scan([a]) == Extremes(Some(a.size), Some(a.size));
    assert Scan([b]) == Extremes(Some(b.size), Some(b.size));
  }
}
