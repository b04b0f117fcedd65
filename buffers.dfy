/** C buffers filled in one direction: the contents of a buffer once a prefix (or, for a
    buffer filled from the back, a suffix) has been written over it. */
module Buffers {

  /** `orig` with its first |prefix| cells replaced by `prefix`. */
  function Overwrite<T>(orig: seq<T>, prefix: seq<T>): (cells: seq<T>)
    requires |prefix| <= |orig|
    ensures |cells| == |orig|
    ensures cells[..|prefix|] == prefix && cells[|prefix|..] == orig[|prefix|..]
  {
    prefix + orig[|prefix|..]
  }

  /** Writing the cell just after the prefix extends the prefix. */
  lemma OverwriteNext<T>(orig: seq<T>, prefix: seq<T>, x: T)
    requires |prefix| < |orig|
    ensures Overwrite(orig, prefix)[|prefix| := x] == Overwrite(orig, prefix + [x])
  {
    assert Overwrite(orig, prefix)[|prefix| := x] == prefix + [x] + orig[|prefix| + 1..];
  }

  /** A cell inside the prefix does not show through it. */
  lemma OverwriteHides<T>(orig: seq<T>, prefix: seq<T>, k: nat, x: T)
    requires k < |prefix| <= |orig|
    ensures Overwrite(orig[k := x], prefix) == Overwrite(orig, prefix)
  {
    assert orig[k := x][|prefix|..] == orig[|prefix|..];
  }

  lemma OverwritePair<T>(orig: seq<T>, prefix: seq<T>, x: T, y: T)
    requires |prefix| + 2 <= |orig|
    ensures Overwrite(orig, prefix)[|prefix| := x][|prefix| + 1 := y] == Overwrite(orig, prefix + [x, y])
  {
    assert Overwrite(orig, prefix)[|prefix| := x][|prefix| + 1 := y] == prefix + [x, y] + orig[|prefix| + 2..];
  }

  /** `orig` with its last |suffix| cells replaced by `suffix`. */
  function Backfill<T>(orig: seq<T>, suffix: seq<T>): (cells: seq<T>)
    requires |suffix| <= |orig|
    ensures |cells| == |orig|
    ensures cells[|orig| - |suffix|..] == suffix
  {
    orig[..|orig| - |suffix|] + suffix
  }

  /** Writing the cell just before the suffix extends the suffix. */
  lemma BackfillNext<T>(orig: seq<T>, suffix: seq<T>, x: T)
    requires |suffix| < |orig|
    ensures Backfill(orig, suffix)[|orig| - |suffix| - 1 := x] == Backfill(orig, [x] + suffix)
  {
    var i := |orig| - |suffix| - 1;
    assert Backfill(orig, suffix)[i := x] == orig[..i] + ([x] + suffix);
  }

  lemma ConcatAssoc<T>(a: seq<T>, b: seq<T>, c: seq<T>)
    ensures a + b + c == a + (b + c)
  {
  }
}
