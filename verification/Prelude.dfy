// Types shared by the stores: the machine integers of the program, cache keys
// and cache values, and a few facts about sequences.
module Prelude {
  newtype uint8 = x: int | 0 <= x < 0x100
  newtype uint16 = x: int | 0 <= x < 0x1_0000
  newtype int64 = x: int | -0x8000_0000_0000_0000 <= x < 0x8000_0000_0000_0000

  const MAX_INT64: int64 := 0x7FFF_FFFF_FFFF_FFFF

  // A Go string used as a cache key is a sequence of bytes.
  type Key = seq<uint8>

  // The interface value stored under a key: nil, or a byte view.
  datatype Value = Nil | View(bytes: seq<uint8>)

  datatype Option<+T> = None | Some(value: T)

  // The sequence read in the opposite direction.
  function Rev<T>(s: seq<T>): (r: seq<T>)
    ensures |r| == |s|
    ensures forall i {:trigger r[i]} :: 0 <= i < |s| ==> r[i] == s[|s| - 1 - i]
  {
    seq(|s|, i requires 0 <= i < |s| => s[|s| - 1 - i])
  }

  // The sequence with the element at position i taken out.
  function Without<T>(s: seq<T>, i: nat): (r: seq<T>)
    requires i < |s|
    ensures |r| == |s| - 1
  {
    s[..i] + s[i + 1..]
  }

  ghost predicate Distinct<T>(s: seq<T>) {
    forall i, j :: 0 <= i < j < |s| ==> s[i] != s[j]
  }

  lemma {:induction false} SubsetSize<T>(a: set<T>, b: set<T>)
    requires a <= b
    ensures |a| <= |b|
  {
    if a != {} {
      var x :| x in a;
      SubsetSize(a - {x}, b - {x});
    }
  }
}
