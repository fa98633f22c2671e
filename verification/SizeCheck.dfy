/** The size check of a batch, in machine integers. Text is a sequence of bytes. */
module SizeCheck {
  /** Go's int on the supported platforms. */
  newtype int64 = x: int | -0x8000_0000_0000_0000 <= x < 0x8000_0000_0000_0000

  /** The limits of a normalised configuration. */
  datatype Limits = Limits(statements: int64, bytes: int64, rows: int64, resultBytes: int64) {
    predicate Normalised() {
      1 <= statements && 1 <= bytes && 1 <= rows && 1 <= resultBytes
    }
  }

  function TotalBytes(statements: seq<string>): nat {
    if statements == [] then 0 else |statements[0]| + TotalBytes(statements[1..])
  }

  lemma {:induction false} TotalBytesSplit(statements: seq<string>, i: nat)
    requires i <= |statements|
    ensures TotalBytes(statements) == TotalBytes(statements[..i]) + TotalBytes(statements[i..])
  {
    if i == 0 {
      assert statements[..0] == [] && statements[0..] == statements;
    } else {
      TotalBytesSplit(statements[1..], i - 1);
      assert statements[1..][..i - 1] == statements[..i][1..] && statements[1..][i - 1..] == statements[i..];
    }
  }

  lemma TotalBytesNext(statements: seq<string>, i: nat)
    requires i < |statements|
    ensures TotalBytes(statements[..i + 1]) == TotalBytes(statements[..i]) + |statements[i]|
  {
    TotalBytesSplit(statements[..i + 1], i);
    assert statements[..i + 1][..i] == statements[..i] && statements[..i + 1][i..] == [statements[i]];
    assert TotalBytes([statements[i]]) == |statements[i]| + TotalBytes([statements[i]][1..]);
  }

  /** Go's `len` is an int. */
  predicate Addressable(statements: seq<string>) {
    |statements| < 0x8000_0000_0000_0000 && forall sql <- statements :: |sql| < 0x8000_0000_0000_0000
  }

  predicate Fits(statements: seq<string>, limits: Limits) {
    |statements| <= limits.statements as int && TotalBytes(statements) <= limits.bytes as int
  }

  /** `checkSize`, in machine integers: no step overflows, and a batch passes exactly when its
      count and its total length are within the limits. */
  method CheckSize(statements: seq<string>, limits: Limits) returns (ok: bool)
    requires limits.Normalised() && Addressable(statements)
    ensures ok <==> Fits(statements, limits)
  {
    if |statements| as int64 > limits.statements {
      return false;
    }
    var size: int64 := 0;
    for i := 0 to |statements|
      invariant 0 <= size <= limits.bytes && size as int == TotalBytes(statements[..i])
    {
      TotalBytesNext(statements, i);
      TotalBytesSplit(statements, i + 1);
      if |statements[i]| as int64 > limits.bytes - size {
        return false;
      }
      size := size + |statements[i]| as int64;
    }
    assert statements[..|statements|] == statements;
    return true;
  }
}
