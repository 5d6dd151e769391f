/**
 * The directory renamers of the dataset utilities (backend/utils.py):
 * `rename_to_ascii_img` and `replace_space_with_underscore_image` walk the
 * directory listing once and rename the entries they select, reporting each
 * rename. The directory is an object whose listing the renames update in
 * place; a rename replaces the entry at its position in the listing.
 */
module Renaming {
  import opened Filenames

  /** One reported rename: `Renamed '<from>' to '<to>'`. */
  datatype Rename = Rename(from: string, to: string)

  /** The listing once every entry that `selected` picks is renamed to `target` of it. */
  function RenamedListing(names: seq<string>, selected: string -> bool, target: string -> string): (r: seq<string>)
    ensures |r| == |names|
    ensures forall i :: 0 <= i < |names| ==>
      r[i] == (if selected(names[i]) then target(names[i]) else names[i])
  {
    if names == [] then []
    else
      var last := names[|names| - 1];
      RenamedListing(names[..|names| - 1], selected, target) + [if selected(last) then target(last) else last]
  }

  /** The renames reported, in listing order. */
  function RenameLog(names: seq<string>, selected: string -> bool, target: string -> string): (log: seq<Rename>)
    ensures |log| <= |names|
    ensures forall k :: 0 <= k < |log| ==> selected(log[k].from) && log[k].to == target(log[k].from)
  {
    if names == [] then []
    else
      var last := names[|names| - 1];
      RenameLog(names[..|names| - 1], selected, target) + (if selected(last) then [Rename(last, target(last))] else [])
  }

  /** The positions of the listing that `selected` picks, in increasing order. */
  function SelectedPositions(names: seq<string>, selected: string -> bool): (idx: seq<int>)
    ensures forall k :: 0 <= k < |idx| ==> 0 <= idx[k] < |names| && selected(names[idx[k]])
    ensures forall k, l :: 0 <= k < l < |idx| ==> idx[k] < idx[l]
    ensures forall i :: 0 <= i < |names| && selected(names[i]) ==> i in idx
  {
    if names == [] then []
    else
      var n := |names| - 1;
      var pre := SelectedPositions(names[..n], selected);
      assert forall k :: 0 <= k < |pre| ==> names[..n][pre[k]] == names[pre[k]];
      assert forall i :: 0 <= i < n ==> names[..n][i] == names[i];
      pre + (if selected(names[n]) then [n] else [])
  }

  /**
   * The log holds one report per selected entry and no other, in listing
   * order: report `k` is the rename of the entry at the `k`-th selected position.
   */
  lemma {:induction false} RenameLogPositions(names: seq<string>, selected: string -> bool, target: string -> string)
    ensures var log, idx := RenameLog(names, selected, target), SelectedPositions(names, selected);
            |log| == |idx| &&
            forall k :: 0 <= k < |log| ==> log[k] == Rename(names[idx[k]], target(names[idx[k]]))
  {
    if names != [] {
      var n := |names| - 1;
      RenameLogPositions(names[..n], selected, target);
      var prelog, preidx := RenameLog(names[..n], selected, target), SelectedPositions(names[..n], selected);
      forall k | 0 <= k < |prelog| ensures names[..n][preidx[k]] == names[preidx[k]] {
      }
    }
  }

  /** In a listing without repeated names, no entry is reported twice. */
  lemma RenameLogOncePerEntry(names: seq<string>, selected: string -> bool, target: string -> string)
    requires forall i, j :: 0 <= i < j < |names| ==> names[i] != names[j]
    ensures var log := RenameLog(names, selected, target);
            forall k, l :: 0 <= k < l < |log| ==> log[k].from != log[l].from
  {
    RenameLogPositions(names, selected, target);
  }

  /** Is some rename in `log` a rename of `n`? */
  ghost predicate Reported(log: seq<Rename>, n: string) {
    exists k :: 0 <= k < |log| && log[k].from == n
  }

  /** An entry is reported exactly when it is listed and selected. */
  lemma {:induction false} RenameLogExactly(names: seq<string>, selected: string -> bool, target: string -> string, n: string)
    ensures Reported(RenameLog(names, selected, target), n) <==> n in names && selected(n)
  {
    if names != [] {
      var pre, last := names[..|names| - 1], names[|names| - 1];
      RenameLogExactly(pre, selected, target, n);
      assert names == pre + [last];
      var log, prelog := RenameLog(names, selected, target), RenameLog(pre, selected, target);
      assert log == prelog + (if selected(last) then [Rename(last, target(last))] else []);
      if Reported(log, n) {
        var k :| 0 <= k < |log| && log[k].from == n;
        if k < |prelog| {
          assert prelog[k].from == n;
          assert Reported(prelog, n);
        } else {
          assert n == last && selected(last);
        }
      }
      if n in names && selected(n) {
        var k: int;
        if n in pre {
          assert Reported(prelog, n);
          k :| 0 <= k < |prelog| && prelog[k].from == n;
        } else {
          assert n == last;
          k := |prelog|;
        }
        assert 0 <= k < |log| && log[k].from == n;
      }
    }
  }

  /** One more entry of the listing: its rename, if selected, comes after the earlier ones. */
  lemma RenameStep(names: seq<string>, i: int, selected: string -> bool, target: string -> string)
    requires 0 <= i < |names|
    ensures RenamedListing(names[..i + 1], selected, target)
         == RenamedListing(names[..i], selected, target) + [if selected(names[i]) then target(names[i]) else names[i]]
    ensures RenameLog(names[..i + 1], selected, target)
         == RenameLog(names[..i], selected, target) + (if selected(names[i]) then [Rename(names[i], target(names[i]))] else [])
  {
    assert names[..i + 1][..i] == names[..i];
  }

  /** Renaming the first pending entry of a half-renamed listing in place. */
  lemma ReplaceFirstPending(names: seq<string>, i: int, done: seq<string>, x: string)
    requires 0 <= i < |names| && |done| == i
    ensures (done + names[i..])[i := x] == done + [x] + names[i + 1..]
  {
    assert names[i..][1..] == names[i + 1..];
  }

  /** Leaving the first pending entry as it is. */
  lemma KeepFirstPending(names: seq<string>, i: int, done: seq<string>)
    requires 0 <= i < |names|
    ensures done + names[i..] == done + [names[i]] + names[i + 1..]
  {
    assert names[i..] == [names[i]] + names[i + 1..];
  }

  /** `not all(ord(char) < 128 for char in filename)`. */
  predicate NeedsAscii(name: string) {
    !IsAscii(name)
  }

  /** The ASCII rename target, as a function of the name. */
  function AsciiTargetOf(transliterate: string -> string): string -> string {
    name => AsciiTarget(name, transliterate)
  }

  /** The ASCII renamer's listing afterwards. */
  function AsciiRenamed(names: seq<string>, transliterate: string -> string): seq<string> {
    RenamedListing(names, NeedsAscii, AsciiTargetOf(transliterate))
  }

  /** The ASCII renamer's report. */
  function AsciiLog(names: seq<string>, transliterate: string -> string): seq<Rename> {
    RenameLog(names, NeedsAscii, AsciiTargetOf(transliterate))
  }

  /** The space renamer's listing afterwards. */
  function SpaceRenamed(names: seq<string>): seq<string> {
    RenamedListing(names, HasSpace, ReplaceSpaces)
  }

  /** The space renamer's report. */
  function SpaceLog(names: seq<string>): seq<Rename> {
    RenameLog(names, HasSpace, ReplaceSpaces)
  }

  class ImageDirectory {
    /** The entries of the directory, in `os.listdir` order. */
    var listing: seq<string>

    constructor (listing: seq<string>)
      ensures this.listing == listing
    {
      this.listing := listing;
    }

    /**
     * The walk both renamers make: for each entry of the listing taken at
     * the start, in order, rename it in place when `selected` picks it and
     * report the rename.
     */
    method RenameSelected(selected: string -> bool, target: string -> string) returns (log: seq<Rename>)
      modifies this
      ensures listing == RenamedListing(old(listing), selected, target)
      ensures log == RenameLog(old(listing), selected, target)
    {
      var names := listing;
      log := [];
      for i := 0 to |names|
        invariant listing == RenamedListing(names[..i], selected, target) + names[i..]
        invariant log == RenameLog(names[..i], selected, target)
      {
        RenameStep(names, i, selected, target);
        var filename := names[i];
        if selected(filename) {
          var newFilename := target(filename);
          ReplaceFirstPending(names, i, RenamedListing(names[..i], selected, target), newFilename);
          listing := listing[i := newFilename];
          log := log + [Rename(filename, newFilename)];
        } else {
          KeepFirstPending(names, i, RenamedListing(names[..i], selected, target));
        }
      }
      assert names[..|names|] == names;
    }

    /** `rename_to_ascii_img`: entries with a non-ASCII character get their ASCII target. */
    method RenameToAscii(transliterate: string -> string) returns (log: seq<Rename>)
      modifies this
      ensures listing == AsciiRenamed(old(listing), transliterate)
      ensures log == AsciiLog(old(listing), transliterate)
    {
      log := RenameSelected(NeedsAscii, AsciiTargetOf(transliterate));
    }

    /** `replace_space_with_underscore_image`: entries with a space get underscores instead. */
    method ReplaceSpaceWithUnderscore() returns (log: seq<Rename>)
      modifies this
      ensures listing == SpaceRenamed(old(listing))
      ensures log == SpaceLog(old(listing))
    {
      log := RenameSelected(HasSpace, ReplaceSpaces);
    }
  }

  /**
   * When no rename target is itself selected, a second walk renames nothing
   * and leaves the listing as the first walk left it.
   */
  lemma RenameTwice(names: seq<string>, selected: string -> bool, target: string -> string)
    requires forall n :: selected(n) ==> !selected(target(n))
    ensures RenamedListing(RenamedListing(names, selected, target), selected, target)
         == RenamedListing(names, selected, target)
    ensures RenameLog(RenamedListing(names, selected, target), selected, target) == []
  {
    var once := RenamedListing(names, selected, target);
    assert forall i :: 0 <= i < |once| ==> !selected(once[i]);
    var log := RenameLog(once, selected, target);
    if log != [] {
      RenameLogExactly(once, selected, target, log[0].from);
      assert false;
    }
    var twice := RenamedListing(once, selected, target);
    assert forall i :: 0 <= i < |once| ==> twice[i] == once[i];
  }

  /**
   * The ASCII renamer touches exactly the names with a code point of 128 or
   * more, leaves all-ASCII names as they are, and every new name is free of
   * spaces.
   */
  lemma AsciiRenameSelection(names: seq<string>, transliterate: string -> string, n: string)
    ensures forall i :: 0 <= i < |names| && IsAscii(names[i]) ==> AsciiRenamed(names, transliterate)[i] == names[i]
    ensures forall k :: 0 <= k < |AsciiLog(names, transliterate)| ==> !HasSpace(AsciiLog(names, transliterate)[k].to)
    ensures Reported(AsciiLog(names, transliterate), n) <==> n in names && !IsAscii(n)
  {
    RenameLogExactly(names, NeedsAscii, AsciiTargetOf(transliterate), n);
  }

  /**
   * When the transliteration yields ASCII text, as unidecode does, a second
   * ASCII pass renames nothing and leaves the listing as the first pass left it.
   */
  lemma AsciiRenameIdempotent(names: seq<string>, transliterate: string -> string)
    requires forall s :: IsAscii(transliterate(s))
    ensures AsciiRenamed(AsciiRenamed(names, transliterate), transliterate) == AsciiRenamed(names, transliterate)
    ensures AsciiLog(AsciiRenamed(names, transliterate), transliterate) == []
  {
    RenameTwice(names, NeedsAscii, AsciiTargetOf(transliterate));
  }

  /**
   * The space renamer touches exactly the names containing a space, leaves
   * the others as they are, and leaves no space in the listing.
   */
  lemma SpaceRenameSelection(names: seq<string>, n: string)
    ensures forall i :: 0 <= i < |names| && !HasSpace(names[i]) ==> SpaceRenamed(names)[i] == names[i]
    ensures forall i :: 0 <= i < |names| ==> !HasSpace(SpaceRenamed(names)[i])
    ensures Reported(SpaceLog(names), n) <==> n in names && HasSpace(n)
  {
    RenameLogExactly(names, HasSpace, ReplaceSpaces, n);
  }

  /** A second space pass renames nothing and leaves the listing as it is. */
  lemma SpaceRenameIdempotent(names: seq<string>)
    ensures SpaceRenamed(SpaceRenamed(names)) == SpaceRenamed(names)
    ensures SpaceLog(SpaceRenamed(names)) == []
  {
    RenameTwice(names, HasSpace, ReplaceSpaces);
  }
}
