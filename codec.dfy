/** A three-dimensional mixed-radix coordinate codec: (row, col, layer) offsets
    inside a bounding box <-> one linear vertex index. The row varies slowest,
    the layer fastest. */
module CoordinateCodec {

  /** A coordinate relative to the origin corner of a bounding box. */
  datatype Offset = Offset(row: nat, col: nat, layer: nat)

  /** Dimension sizes, in the order (rows, cols, layers). */
  datatype Codec = Codec(rows: nat, cols: nat, layers: nat) {

    /** Size of the linear address space. */
    function Max(): nat
    {
      rows * cols * layers
    }

    predicate Contains(x: Offset)
    {
      x.row < rows && x.col < cols && x.layer < layers
    }

    function Encode(x: Offset): (i: nat)
      requires Contains(x)
      ensures i < Max()
    {
      EncodeBound(rows, cols, layers, x.row, x.col, x.layer);
      (x.row * cols + x.col) * layers + x.layer
    }

    function Decode(i: nat): (x: Offset)
      requires i < Max()
      ensures Contains(x)
      ensures Encode(x) == i
    {
      PositiveFactors(rows, cols, layers, i);
      var q := i / layers;
      DivBound(i, rows * cols, layers);
      DivBound(q, rows, cols);
      var x := Offset(q / cols, q % cols, i % layers);
      assert q == (q / cols) * cols + q % cols;
      assert i == q * layers + i % layers;
      x
    }
  }

  /** Decoding an encoded offset gives the offset back. */
  lemma DecodeEncode(cd: Codec, x: Offset)
    requires cd.Contains(x)
    ensures cd.Decode(cd.Encode(x)) == x
  {
    var y := cd.Decode(cd.Encode(x));
    EncodeInjective(cd, x, y);
  }

  /** No two offsets inside the box share a vertex index. */
  lemma EncodeInjective(cd: Codec, x: Offset, y: Offset)
    requires cd.Contains(x) && cd.Contains(y)
    requires cd.Encode(x) == cd.Encode(y)
    ensures x == y
  {
    var i := cd.Encode(x);
    var qx := x.row * cd.cols + x.col;
    var qy := y.row * cd.cols + y.col;
    DivModUnique(i, qx, x.layer, cd.layers);
    DivModUnique(i, qy, y.layer, cd.layers);
    DivModUnique(qx, x.row, x.col, cd.cols);
    DivModUnique(qy, y.row, y.col, cd.cols);
  }

  // ---------------------------------------------------------------------
  // Arithmetic helpers

  lemma EncodeBound(rows: nat, cols: nat, layers: nat, r: nat, c: nat, l: nat)
    requires r < rows && c < cols && l < layers
    ensures (r * cols + c) * layers + l < rows * cols * layers
  {
    MulLeq(r + 1, rows, cols);
    assert r * cols + c < rows * cols;
    MulLeq(r * cols + c + 1, rows * cols, layers);
  }

  lemma MulLeq(a: nat, b: nat, k: nat)
    requires a <= b
    ensures a * k <= b * k
  {
  }

  /** A codec no larger in any dimension has no larger address space. */
  lemma MaxMonotone(cd: Codec, cd': Codec)
    requires cd.rows <= cd'.rows && cd.cols <= cd'.cols && cd.layers <= cd'.layers
    ensures cd.Max() <= cd'.Max()
  {
    MulLeq(cd.rows, cd'.rows, cd.cols);
    assert cd.cols * cd'.rows <= cd'.cols * cd'.rows by { MulLeq(cd.cols, cd'.cols, cd'.rows); }
    MulLeq(cd.rows * cd.cols, cd'.rows * cd'.cols, cd.layers);
    assert cd.layers * (cd'.rows * cd'.cols) <= cd'.layers * (cd'.rows * cd'.cols) by {
      MulLeq(cd.layers, cd'.layers, cd'.rows * cd'.cols);
    }
  }

  lemma PositiveFactors(rows: nat, cols: nat, layers: nat, i: nat)
    requires i < rows * cols * layers
    ensures rows > 0 && cols > 0 && layers > 0
  {
  }

  lemma DivBound(i: nat, n: nat, d: nat)
    requires d > 0 && i < n * d
    ensures i / d < n
  {
    if i / d >= n {
      MulLeq(n, i / d, d);
    }
  }

  /** Euclidean division is unique: n == q*d + r with 0 <= r < d fixes n/d and n%d. */
  lemma DivModUnique(n: nat, q: nat, r: nat, d: nat)
    requires 0 <= r < d && n == q * d + r
    ensures n / d == q && n % d == r
  {
    var q', r' := n / d, n % d;
    assert n == q' * d + r';
    if q' < q {
      MulLeq(q' + 1, q, d);
    } else if q < q' {
      MulLeq(q + 1, q', d);
    }
  }
}
