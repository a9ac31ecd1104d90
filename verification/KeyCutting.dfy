/**
 Cutting a measured key into one part per combined circuit. The length list is in the
 order of the key's characters, that is with the last circuit first. The position
 arithmetic and the key's length are 32-bit, and slicing out of bounds is a Go run-time
 panic.
 */
module KeyCutting {
  import opened Bits

  const INT32_LIMIT: int := 0x8000_0000
  const UINT32_SIZE: int := 0x1_0000_0000

  /** Two's-complement wrap-around to 32 bits. */
  function Wrap32(x: int): int {
    (x + INT32_LIMIT) % UINT32_SIZE - INT32_LIMIT
  }

  predicate Int32s(lengths: seq<int>) {
    forall i :: 0 <= i < |lengths| ==> -INT32_LIMIT <= lengths[i] < INT32_LIMIT
  }

  predicate NonNegative(lengths: seq<int>) {
    forall i :: 0 <= i < |lengths| ==> lengths[i] >= 0
  }

  /** A key's length as the program sees it. */
  function Length32(key: string): (r: int)
    ensures r <= |key|
    ensures r == |key| <==> |key| < INT32_LIMIT
  {
    Wrap32(|key|)
  }

  /** The lengths add up to the key's length, as the program sees it. */
  predicate Fits(key: string, lengths: seq<int>) {
    NonNegative(lengths) && Sum(lengths) == Length32(key)
  }

  /** Lengths that really add up to the key are accepted exactly below 2^31 characters. */
  lemma WholeKeyFits(key: string, lengths: seq<int>)
    requires NonNegative(lengths) && Sum(lengths) == |key|
    ensures Fits(key, lengths) <==> |key| < 0x8000_0000
  {
  }

  /** Part `i` of a key, in character order. */
  function Piece(key: string, lengths: seq<int>, i: nat): (r: string)
    requires Fits(key, lengths) && i < |lengths|
    ensures |r| == lengths[i]
  {
    SumPrefix(lengths, i);
    SumPrefix(lengths, i + 1);
    assert lengths[..i + 1][..i] == lengths[..i];
    key[Sum(lengths[..i])..Sum(lengths[..i + 1])]
  }

  /** `Piece` as a relabelling of keys. */
  function PieceOf(lengths: seq<int>, i: nat): string -> string
    requires i < |lengths|
  {
    key => if Fits(key, lengths) then Piece(key, lengths, i) else key
  }

  datatype Cut = Pieces(pieces: seq<string>) | Inconsistent | Crash

  /** Part `i` is the first one that does not fit: a negative length, or past the end of the key. */
  ghost predicate StopsAt(key: string, lengths: seq<int>, i: nat)
    requires i < |lengths|
  {
    && NonNegative(lengths[..i]) && (i == 0 || Sum(lengths[..i]) <= Length32(key))
    && (lengths[i] < 0 || Sum(lengths[..i]) + lengths[i] > Length32(key))
  }

  /** The first part that does not fit goes back inside the key, or ends past 32 bits. */
  ghost predicate Panics(key: string, lengths: seq<int>) {
    exists i :: 0 <= i < |lengths| && StopsAt(key, lengths, i) && PanicsAt(key, lengths, i)
  }

  ghost predicate PanicsAt(key: string, lengths: seq<int>, i: nat)
    requires i < |lengths|
  {
    var high := Sum(lengths[..i]) + lengths[i];
    (lengths[i] < 0 && high <= Length32(key)) || high >= INT32_LIMIT
  }

  /**
   A key is cut exactly when the lengths are non-negative and add up to its 32-bit length.
   Otherwise the division panics, instead of reporting the inconsistency, exactly if `Panics`.
   */
  method DivideStringByLengths(input: string, lengths: seq<int>) returns (r: Cut)
    requires Int32s(lengths)
    ensures r.Pieces? <==> Fits(input, lengths)
    ensures r.Pieces? ==> |r.pieces| == |lengths|
                          && forall i :: 0 <= i < |lengths| ==> r.pieces[i] == Piece(input, lengths, i)
    ensures r.Crash? <==> Panics(input, lengths)
  {
    var pieces := [];
    var pos := 0;
    for i := 0 to |lengths|
      invariant NonNegative(lengths[..i])
      invariant pos == Sum(lengths[..i]) && 0 <= pos <= |input| && (i == 0 || pos <= Length32(input))
      invariant |pieces| == i
      invariant forall j :: 0 <= j < i ==> CutAt(input, lengths, j, pieces[j])
    {
      assert lengths[..i + 1][..i] == lengths[..i];
      if Wrap32(pos + lengths[i]) > Length32(input) {
        FirstStop(input, lengths, i);
        return Inconsistent;
      }
      var high := Wrap32(pos + lengths[i]);
      if high < pos {
        FirstStop(input, lengths, i);
        return Crash;
      }
      pieces := pieces + [input[pos..high]];
      pos := high;
    }
    assert lengths[..|lengths|] == lengths;
    NoStop(input, lengths);
    if pos != Length32(input) {
      return Inconsistent;
    }
    r := Pieces(pieces);
  }

  ghost predicate CutAt(input: string, lengths: seq<int>, j: nat, piece: string)
    requires j < |lengths|
  {
    var low, high := Sum(lengths[..j]), Sum(lengths[..j + 1]);
    0 <= low <= high <= |input| && piece == input[low..high]
  }

  /** Once a running sum has passed the key, or gone down, the lengths cannot fit. */
  lemma TooLong(input: string, lengths: seq<int>, i: nat)
    requires i < |lengths| && StopsAt(input, lengths, i)
    ensures !Fits(input, lengths)
    ensures forall j :: i < j < |lengths| ==> !StopsAt(input, lengths, j)
  {
    assert lengths[..i + 1][..i] == lengths[..i];
    if NonNegative(lengths) {
      SumPrefix(lengths, i + 1);
    }
    forall j | i < j < |lengths| ensures !StopsAt(input, lengths, j) {
      if NonNegative(lengths[..j]) {
        assert lengths[..j][..i + 1] == lengths[..i + 1] && lengths[..j][i] == lengths[i];
        SumPrefix(lengths[..j], i + 1);
      }
    }
  }

  /** There is only one first part that does not fit, and it decides between error and panic. */
  lemma FirstStop(input: string, lengths: seq<int>, i: nat)
    requires i < |lengths| && StopsAt(input, lengths, i)
    ensures !Fits(input, lengths)
    ensures Panics(input, lengths) <==> PanicsAt(input, lengths, i)
  {
    TooLong(input, lengths, i);
    if Panics(input, lengths) {
      var j :| 0 <= j < |lengths| && StopsAt(input, lengths, j) && PanicsAt(input, lengths, j);
      if j < i {
        TooLong(input, lengths, j);
      }
    }
  }

  lemma NoStop(input: string, lengths: seq<int>)
    requires NonNegative(lengths) && (lengths == [] || Sum(lengths) <= Length32(input))
    ensures !Panics(input, lengths)
  {
    forall i | 0 <= i < |lengths| ensures !StopsAt(input, lengths, i) {
      assert lengths[..i + 1][..i] == lengths[..i];
      SumPrefix(lengths, i + 1);
    }
  }

  /** With non-negative lengths whose sum is a 32-bit integer, a misfit is always reported as an error. */
  lemma NoPanicBelowLimit(input: string, lengths: seq<int>)
    requires NonNegative(lengths) && Sum(lengths) < 0x8000_0000
    ensures !Panics(input, lengths)
  {
    forall i | 0 <= i < |lengths| ensures !PanicsAt(input, lengths, i) {
      assert lengths[..i + 1][..i] == lengths[..i];
      SumPrefix(lengths, i + 1);
    }
  }

  /** A panic: the second part goes back inside the key. */
  lemma PanicWitness()
    ensures Panics("01", [2, -1]) && !Fits("01", [2, -1])
  {
    var lengths := [2, -1];
    assert lengths[..1] == [2] && [2][..0] == [];
    assert Sum([2]) == 2;
    assert StopsAt("01", lengths, 1) && PanicsAt("01", lengths, 1);
  }
}
