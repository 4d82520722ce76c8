/**
  Scalars as little-endian bytes, and the transport of Merkle paths: the client flattens a
  raw path to bytes, the bindings decode the bytes into a matrix, and the command line
  rearranges the same raw path into a matrix of its own.
 */
module MerklePath {
  import opened Words

  const ARITY: nat := 7
  const TREE_HEIGHT: nat := 13
  const SCALAR_SIZE: nat := 32

  datatype Result<+T> = Ok(value: T) | Err

  newtype Byte = b: int | 0 <= b < 256

  // The number whose little-endian digits are the bytes.
  function Value(bytes: seq<Byte>): nat {
    if bytes == [] then 0 else bytes[0] as nat + 256 * Value(bytes[1..])
  }

  function LittleEndian(value: nat, size: nat): (bytes: seq<Byte>)
    ensures |bytes| == size
  {
    if size == 0 then [] else [(value % 256) as Byte] + LittleEndian(value / 256, size - 1)
  }

  function Power256(n: nat): nat {
    if n == 0 then 1 else 256 * Power256(n - 1)
  }

  lemma {:induction false} ValueOfLittleEndian(value: nat, size: nat)
    requires value < Power256(size)
    ensures Value(LittleEndian(value, size)) == value
  {
    if size > 0 {
      ValueOfLittleEndian(value / 256, size - 1);
      assert LittleEndian(value, size)[1..] == LittleEndian(value / 256, size - 1);
    }
  }

  lemma {:induction false} LittleEndianOfValue(bytes: seq<Byte>)
    ensures Value(bytes) < Power256(|bytes|)
    ensures LittleEndian(Value(bytes), |bytes|) == bytes
  {
    if bytes != [] {
      LittleEndianOfValue(bytes[1..]);
      assert Value(bytes) % 256 == bytes[0] as nat && Value(bytes) / 256 == Value(bytes[1..]);
    }
  }

  lemma ScalarFits(value: nat)
    requires value < R
    ensures value < Power256(SCALAR_SIZE)
  {
    assert Power256(4) == 0x1_0000_0000;
    assert Power256(8) == 0x1_0000_0000 * 0x1_0000_0000;
    assert Power256(16) == Power256(8) * 0x1_0000_0000 * 0x1_0000_0000;
    assert Power256(24) == Power256(16) * 0x1_0000_0000 * 0x1_0000_0000;
    assert Power256(32) == Power256(24) * 0x1_0000_0000 * 0x1_0000_0000;
  }

  // -------- scalars --------

  method BytesToBigint(bytes: seq<Byte>) returns (result: nat)
    requires |bytes| == SCALAR_SIZE
    ensures result == Value(bytes)
  {
    hide Value;
    result := 0;
    NoBytes();
    assert bytes[32..] == [];
    var i := 31;
    while i >= 0
      invariant -1 <= i <= 31
      invariant result == Value(bytes[i + 1..])
    {
      ValueFrom(bytes, i);
      result := 256 * result + bytes[i] as nat;
      i := i - 1;
    }
    WholeOf(bytes);
  }

  lemma WholeOf(bytes: seq<Byte>)
    ensures bytes[0..] == bytes
  {
  }

  lemma NoBytes()
    ensures Value([]) == 0
  {
  }

  lemma ValueFrom(bytes: seq<Byte>, i: nat)
    requires i < |bytes|
    ensures Value(bytes[i..]) == bytes[i] as nat + 256 * Value(bytes[i + 1..])
  {
    assert bytes[i..][1..] == bytes[i + 1..];
  }

  predicate IsBigintScalar(value: int) {
    0 <= value < R
  }

  method BigintToScalarBytes(value: int) returns (r: Result<seq<Byte>>)
    ensures r.Ok? <==> 0 <= value < R
    ensures r.Ok? ==> r.value == LittleEndian(value, SCALAR_SIZE)
  {
    if !IsBigintScalar(value) {
      return Err;
    }
    var result := new Byte[32];
    var rest: nat := value;
    for i := 0 to 32
      invariant result[..i] + LittleEndian(rest, 32 - i) == LittleEndian(value, 32)
    {
      ghost var before := rest;
      result[i] := (rest % 256) as Byte;
      rest := rest / 256;
      assert LittleEndian(before, 32 - i) == [result[i]] + LittleEndian(rest, 32 - (i + 1));
    }
    assert result[..32] == result[..];
    r := Ok(result[..]);
  }

  // The constructor of a scalar from its bytes.
  method NewScalar(bytes: seq<Byte>) returns (r: Result<seq<Byte>>)
    ensures r.Ok? <==> |bytes| == SCALAR_SIZE && Value(bytes) < R
    ensures r.Ok? ==> r.value == bytes
  {
    if |bytes| != 32 {
      return Err;
    }
    var bigint := BytesToBigint(bytes);
    if bigint >= R {
      return Err;
    }
    r := Ok(bytes);
  }

  method FromBigint(value: int) returns (r: Result<seq<Byte>>)
    ensures r.Ok? <==> 0 <= value < R
    ensures r.Ok? ==> |r.value| == SCALAR_SIZE && Value(r.value) == value
  {
    r := BigintToScalarBytes(value);
    if r.Ok? {
      ScalarFits(value);
      ValueOfLittleEndian(value, SCALAR_SIZE);
      r := NewScalar(r.value);
    }
  }

  // -------- the three views of a path --------

  function Flatten(parts: seq<seq<Byte>>): seq<Byte> {
    if parts == [] then [] else Flatten(parts[..|parts| - 1]) + parts[|parts| - 1]
  }

  function ScalarBytes(raw: seq<int>): (parts: seq<seq<Byte>>)
    requires forall i :: 0 <= i < |raw| ==> IsBigintScalar(raw[i])
    ensures |parts| == |raw|
  {
    seq(|raw|, i requires 0 <= i < |raw| && IsBigintScalar(raw[i]) => LittleEndian(raw[i], SCALAR_SIZE))
  }

  // What the client sends: the flattened path and the root.
  function MerklePathAndRoot(raw: seq<int>): Result<(seq<Byte>, seq<Byte>)> {
    if |raw| != TREE_HEIGHT * ARITY + 1 then Err
    else if exists i :: 0 <= i < |raw| && !IsBigintScalar(raw[i]) then Err
    else
      var mapped := ScalarBytes(raw);
      Ok((Flatten(mapped[..|mapped| - 1]), mapped[|mapped| - 1]))
  }

  type Matrix = seq<seq<nat>>

  function Chunk(v: seq<Byte>, n: nat): (chunk: seq<Byte>)
    requires SCALAR_SIZE * (n + 1) <= |v|
    ensures |chunk| == SCALAR_SIZE
  {
    v[SCALAR_SIZE * n..SCALAR_SIZE * (n + 1)]
  }

  // Row-major: element (i, j) is number ARITY * i + j.
  function RowMajor(flat: seq<nat>): Matrix
    requires |flat| == TREE_HEIGHT * ARITY
  {
    seq(TREE_HEIGHT, i requires 0 <= i < TREE_HEIGHT => flat[ARITY * i..ARITY * (i + 1)])
  }

  lemma IsRowMajor(m: Matrix, flat: seq<nat>)
    requires |flat| == TREE_HEIGHT * ARITY && |m| == TREE_HEIGHT
    requires forall i :: 0 <= i < TREE_HEIGHT ==> |m[i]| == ARITY
    requires forall i, j :: 0 <= i < TREE_HEIGHT && 0 <= j < ARITY ==> m[i][j] == flat[ARITY * i + j]
    ensures m == RowMajor(flat)
  {
    forall i | 0 <= i < TREE_HEIGHT
      ensures m[i] == RowMajor(flat)[i]
    {
    }
  }

  ghost predicate PathBytes(v: seq<Byte>) {
    && |v| == TREE_HEIGHT * ARITY * SCALAR_SIZE
    && forall n :: 0 <= n < TREE_HEIGHT * ARITY ==> Value(Chunk(v, n)) < R
  }

  function Values(v: seq<Byte>): (flat: seq<nat>)
    requires |v| == TREE_HEIGHT * ARITY * SCALAR_SIZE
    ensures |flat| == TREE_HEIGHT * ARITY
  {
    seq(TREE_HEIGHT * ARITY, n requires 0 <= n < TREE_HEIGHT * ARITY => Value(Chunk(v, n)))
  }

  function Rows(m: array2<nat>): Matrix
    reads m
  {
    seq(m.Length0, i requires 0 <= i < m.Length0 reads m =>
      seq(m.Length1, j requires 0 <= i < m.Length0 && 0 <= j < m.Length1 reads m => m[i, j]))
  }

  method VecToPath(v: seq<Byte>) returns (r: Result<Matrix>)
    ensures r.Ok? <==> PathBytes(v)
    ensures r.Ok? ==> r.value == RowMajor(Values(v))
  {
    hide Value;
    if TREE_HEIGHT * ARITY * SCALAR_SIZE != |v| {
      return Err;
    }
    var result := new nat[TREE_HEIGHT, ARITY] ((i, j) => 0);
    var next := 0;
    for i := 0 to TREE_HEIGHT
      invariant next == ARITY * i
      invariant forall n :: 0 <= n < next ==> Value(Chunk(v, n)) < R
      invariant forall a, b :: 0 <= a < i && 0 <= b < ARITY ==> result[a, b] == Value(Chunk(v, ARITY * a + b))
    {
      for j := 0 to ARITY
        invariant next == ARITY * i + j
        invariant forall n :: 0 <= n < next ==> Value(Chunk(v, n)) < R
        invariant forall a, b :: 0 <= a < i && 0 <= b < ARITY ==> result[a, b] == Value(Chunk(v, ARITY * a + b))
        invariant forall b :: 0 <= b < j ==> result[i, b] == Value(Chunk(v, ARITY * i + b))
      {
        var elem := BytesToBigint(Chunk(v, next));
        if elem >= R {
          return Err;
        }
        result[i, j] := elem;
        next := next + 1;
      }
    }
    IsRowMajor(Rows(result), Values(v));
    r := Ok(Rows(result));
  }

  method ReorganizeMerklePath(raw: seq<nat>) returns (r: Result<(nat, Matrix)>)
    ensures r.Ok? <==> |raw| == ARITY * TREE_HEIGHT + 1
    ensures r.Ok? ==> r.value == (raw[ARITY * TREE_HEIGHT], RowMajor(raw[..ARITY * TREE_HEIGHT]))
  {
    if |raw| != ARITY * TREE_HEIGHT + 1 {
      return Err;
    }
    hide RowMajor;
    var root := raw[|raw| - 1];
    var path := new nat[TREE_HEIGHT, ARITY] ((i, j) => 0);
    for i := 0 to ARITY * TREE_HEIGHT
      invariant forall a, b :: 0 <= a < TREE_HEIGHT && 0 <= b < ARITY && ARITY * a + b < i ==>
                                 path[a, b] == raw[ARITY * a + b]
    {
      path[i / ARITY, i % ARITY] := raw[i];
    }
    IsRowMajor(Rows(path), raw[..ARITY * TREE_HEIGHT]);
    r := Ok((root, Rows(path)));
  }

  // -------- the transport --------

  lemma {:induction false} FlattenChunk(parts: seq<seq<Byte>>, n: nat)
    requires forall i :: 0 <= i < |parts| ==> |parts[i]| == SCALAR_SIZE
    ensures |Flatten(parts)| == SCALAR_SIZE * |parts|
    ensures n < |parts| ==> Chunk(Flatten(parts), n) == parts[n]
  {
    if parts != [] {
      FlattenChunk(parts[..|parts| - 1], n);
    }
  }

  // The client accepts exactly the paths of the right length whose elements are scalars; the
  // bytes it sends decode to the matrix that the command line makes of the same path, and
  // the root is the same.
  lemma Transport(raw: seq<int>)
    ensures MerklePathAndRoot(raw).Ok?
            <==> |raw| == 13 * 7 + 1 && forall i :: 0 <= i < |raw| ==> 0 <= raw[i] < R
    ensures MerklePathAndRoot(raw).Ok? ==>
              var (bytes, root) := MerklePathAndRoot(raw).value;
              && |bytes| == 13 * 7 * 32 && PathBytes(bytes)
              && RowMajor(Values(bytes)) == RowMajor(raw[..TREE_HEIGHT * ARITY])
              && |root| == SCALAR_SIZE && Value(root) == raw[TREE_HEIGHT * ARITY]
  {
    if MerklePathAndRoot(raw).Ok? {
      var mapped := ScalarBytes(raw);
      var parts := mapped[..|mapped| - 1];
      var bytes := Flatten(parts);
      FlattenChunk(parts, 0);
      forall n | 0 <= n < |raw|
        ensures Value(mapped[n]) == raw[n]
        ensures n < TREE_HEIGHT * ARITY ==> Value(Chunk(bytes, n)) == raw[n]
      {
        ScalarFits(raw[n]);
        ValueOfLittleEndian(raw[n], SCALAR_SIZE);
        FlattenChunk(parts, n);
      }
      assert Values(bytes) == raw[..TREE_HEIGHT * ARITY];
    }
  }
}
