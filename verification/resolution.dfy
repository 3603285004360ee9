/**
 * The resolution loop at the end of `Mesh::loadOBJ`: each collected
 * (position index, texture index) pair becomes one `Vertex`, looked up in
 * the position and texture tables with 1-based indices.
 */
module Resolution {
  import opened Wrappers
  import opened ObjParse

  /** One record of `mVertices`. */
  datatype Vertex = Vertex(position: Position, texCoords: TexCoord)

  /** `index - 1` in `unsigned int` arithmetic: index 0 wraps around to 2^32 - 1. */
  function Slot(index: u32): (slot: u32)
    ensures index >= 1 ==> slot == index - 1
    ensures index == 0 ==> slot == UnsignedRange - 1
  {
    (index - 1) % 0x1_0000_0000
  }

  /**
   * 1-based indices: for a table of fewer than 2^32 entries, the slot an
   * index selects lies inside the table exactly when the index is between
   * 1 and the table's length.
   */
  lemma SlotInTable(index: u32, length: nat)
    requires length < UnsignedRange
    ensures Slot(index) < length <==> 1 <= index <= length
  {
  }

  /** A face that names entry `k` (counting from 1) reads entry `k - 1` of the table. */
  lemma OneBasedLookup(k: int, length: nat)
    requires 1 <= k <= length && k < UnsignedRange
    ensures Slot(ToUnsigned(k)) == k - 1 < length
  {
  }

  /**
   * A negative index in the range of `int`, stored as `unsigned int`,
   * never selects an entry of a table with fewer than 2^31 entries.
   */
  lemma NegativeIndexMisses(k: int, length: nat)
    requires -0x8000_0000 <= k < 0 && length < 0x8000_0000
    ensures Slot(ToUnsigned(k)) >= length
  {
  }

  /**
   * With tables of fewer than 2^32 entries, vertex `i` can be built exactly
   * when both of its indices lie between 1 and the length of their table
   * and `uvIndices` has an entry `i`.
   */
  lemma ResolvableIndices(st: Tables, i: nat)
    requires i < |st.vertexIndices|
    requires |st.positions| < UnsignedRange && |st.texCoords| < UnsignedRange
    ensures Resolvable(st, i) <==>
      && 1 <= st.vertexIndices[i] <= |st.positions|
      && i < |st.uvIndices|
      && 1 <= st.uvIndices[i] <= |st.texCoords|
  {
    SlotInTable(st.vertexIndices[i], |st.positions|);
    if i < |st.uvIndices| {
      SlotInTable(st.uvIndices[i], |st.texCoords|);
    }
  }

  /** Why output vertex `at` cannot be built. */
  datatype ResolveError =
    | PositionOutOfRange(at: nat)
    | TexCoordMissing(at: nat)
    | TexCoordOutOfRange(at: nat)

  /** All three reads the source makes for output vertex `i` are in bounds. */
  predicate Resolvable(st: Tables, i: nat)
    requires i < |st.vertexIndices|
  {
    && Slot(st.vertexIndices[i]) < |st.positions|
    && i < |st.uvIndices|
    && Slot(st.uvIndices[i]) < |st.texCoords|
  }

  /** The first read that fails for vertex `i`, in the order the source makes them. */
  function Diagnose(st: Tables, i: nat): ResolveError
    requires i < |st.vertexIndices| && !Resolvable(st, i)
  {
    if Slot(st.vertexIndices[i]) >= |st.positions| then PositionOutOfRange(i)
    else if i >= |st.uvIndices| then TexCoordMissing(i)
    else TexCoordOutOfRange(i)
  }

  /**
   * Iterations `0 .. n - 1` of the loop. Where the source would read out
   * of bounds, this reports the first offending vertex instead.
   */
  function ResolvePrefix(st: Tables, n: nat): (r: Result<seq<Vertex>, ResolveError>)
    requires n <= |st.vertexIndices|
    ensures r.Success? <==> forall i :: 0 <= i < n ==> Resolvable(st, i)
    ensures r.Success? ==> |r.value| == n && forall i :: 0 <= i < n ==>
      Resolvable(st, i) && r.value[i] == Vertex(st.positions[Slot(st.vertexIndices[i])], st.texCoords[Slot(st.uvIndices[i])])
    ensures r.Failure? ==> r.error.at < n && !Resolvable(st, r.error.at) && r.error == Diagnose(st, r.error.at)
    ensures r.Failure? ==> forall i :: 0 <= i < r.error.at ==> Resolvable(st, i)
  {
    if n == 0 then Success([])
    else
      match ResolvePrefix(st, n - 1)
      case Failure(e) => Failure(e)
      case Success(done) =>
        var i := n - 1;
        if !Resolvable(st, i) then Failure(Diagnose(st, i))
        else Success(done + [Vertex(st.positions[Slot(st.vertexIndices[i])], st.texCoords[Slot(st.uvIndices[i])])])
  }

  /** The condition under which the source's loop stays within all three vectors. */
  predicate SourceInBounds(st: Tables) {
    forall i :: 0 <= i < |st.vertexIndices| ==> Resolvable(st, i)
  }

  /**
   * The whole loop: one vertex per `vertexIndices` entry, in order, or the
   * first vertex that cannot be built. It succeeds exactly where the
   * unchecked loop is defined, and then produces the same vertices.
   */
  function Resolve(st: Tables): (r: Result<seq<Vertex>, ResolveError>)
    ensures r.Success? <==> SourceInBounds(st)
    ensures r.Success? ==> r.value == SourceResolve(st)
    ensures r.Failure? ==> r.error.at < |st.vertexIndices| && !Resolvable(st, r.error.at)
    ensures r.Failure? ==> forall i :: 0 <= i < r.error.at ==> Resolvable(st, i)
  {
    ResolvePrefix(st, |st.vertexIndices|)
  }

  /**
   * The loop exactly as written, which reads `tempVertices`, `uvIndices`
   * and `tempUVs` without checking; its meaning is defined only when every
   * read is in bounds.
   */
  function SourceResolve(st: Tables): (vertices: seq<Vertex>)
    requires SourceInBounds(st)
    ensures |vertices| == |st.vertexIndices|
  {
    seq(|st.vertexIndices|, i requires 0 <= i < |st.vertexIndices| && Resolvable(st, i) =>
      Vertex(st.positions[Slot(st.vertexIndices[i])], st.texCoords[Slot(st.uvIndices[i])]))
  }

  /**
   * One turn of the resolution loop on vertex `i`: either its reads are
   * out of bounds, and resolution as a whole fails, or it appends vertex `i`.
   */
  lemma ResolveStep(st: Tables, i: nat, vertices: seq<Vertex>)
    requires i < |st.vertexIndices| && ResolvePrefix(st, i) == Success(vertices)
    ensures !Resolvable(st, i) ==> Resolve(st).Failure?
    ensures Resolvable(st, i) ==>
      ResolvePrefix(st, i + 1) == Success(vertices + [Vertex(st.positions[Slot(st.vertexIndices[i])], st.texCoords[Slot(st.uvIndices[i])])])
  {
  }

  /**
   * When `uvIndices` is shorter than `vertexIndices`, the source reads
   * `uvIndices[|uvIndices|]`, past its end, and resolution reports it.
   */
  lemma ShortUVsUnresolvable(st: Tables)
    requires |st.uvIndices| < |st.vertexIndices|
    ensures !SourceInBounds(st)
    ensures Resolve(st).Failure? && Resolve(st).error.at <= |st.uvIndices|
  {
    assert !Resolvable(st, |st.uvIndices|);
  }
}
