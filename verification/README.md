# Simplified Wavefront OBJ loader

This project models the hand-written OBJ loader of the mesh helper:
`Mesh::loadOBJ` and `Mesh::processFaceVertex` in `src/Mesh.cpp`. The
loader takes a file name and the file's lines and builds a flat list of
vertices. Each vertex pairs a position with a texture coordinate.

The model follows the code step by step:

- **Name check.** The name must contain `.obj` somewhere (`MeshModel.Load`, `Text.Find`).
- **Line loop** (`ObjParse.ParseLine` and `ObjParse.ParseLines`).
  - A line starting `v ` adds a position.
  - A line starting `vt` adds a texture coordinate.
  - A line starting `f ` is a face.
  - Any other line is ignored.
  - A line that is exactly `vt` makes `substr(3)` throw, and the load aborts.
- **Faces.** A face with 3 or 4 whitespace-separated tokens is fanned into triangles (`Face.FanFrom`, `Face.FaceCalls`). Any other face is skipped.
- **Tokens.** Each face token goes through the cascade of three `sscanf` formats (`Face.ProcessFaceVertex`, over the `%d` model in `Scanf`). Its indices are pushed as `unsigned int` values (`ObjParse.ProcessToken`).
- **Resolution loop.** Each index pair becomes one vertex (`Resolution.ResolvePrefix`), read through 1-based, wrapping `unsigned` arithmetic (`Resolution.Slot`).

`MeshModel.LoadObjFile` restates the loader with the source's own loops and proves that it agrees with the functional `MeshModel.Load`.

The module `Scenarios` states what the model yields for whole files of the shapes exporters write, with the coordinate text left as parameters:

- a textured triangle;
- a triangle whose corners name normals but no texture coordinates;
- a triangle that names a position the file does not define.

Coordinates are never parsed. A `Position` keeps the text after `v `, and a `TexCoord` keeps the text after `vt` and one more character.

The model follows the code as written:

- The name is accepted when `.obj` occurs anywhere in it, not only as its extension.
- A face of unsupported arity is skipped without failing the load. So is a face token that cannot be parsed.
- The source performs out-of-bounds reads without any check. Each such read becomes an explicit error, `LoadError.Unresolved`, which reports the first vertex affected.

## Model

| member | source | states |
|---|---|---|
| Text.Find | src/Mesh.cpp:46 | `find` returns npos exactly when the pattern does not occur in the name; otherwise it returns the first position where the pattern occurs |
| Text.Tokenize | src/Mesh.cpp:81-84 | each word `f >> indexGroup` extracts is non-empty and contains no whitespace, and no word is extracted exactly when the stream holds only whitespace |
| Text.TokenizeSpaces | src/Mesh.cpp:81 | any run of whitespace in front of the stream is skipped |
| Text.TokenizeWordBefore | src/Mesh.cpp:81-84 | a word followed by whitespace or by the end of the stream is extracted whole, and extraction continues after it |
| Text.TokenizeLayout | src/Mesh.cpp:77-84 | words separated by any non-empty whitespace runs, with any leading and trailing whitespace, are extracted exactly and in order, so `f 1  2 3`, `f 1\t2\t3` and `f 1 2 3 ` each give three tokens |
| Text.TokenizeJoin | src/Mesh.cpp:77-84 | splitting words joined by single spaces gives back exactly those words, in order |
| ObjParse.HeadClassifies | src/Mesh.cpp:60-74 | comparing `substr(0, 2)` with `"v "`, `"vt"` or `"f "` is the same as testing the line's first two characters |
| ObjParse.ParseLine | src/Mesh.cpp:60-102 | a `v ` line adds exactly one position; a `vt` line adds exactly one texture coordinate, unless it is exactly `vt`, which throws; an `f ` line makes the fan's calls; every other line leaves all four vectors unchanged |
| ObjParse.ParseLines | src/Mesh.cpp:57-103 | the loop aborts exactly when some line is exactly `vt`, and it reports the first such line |
| ObjParse.ParseLinesSnoc | src/Mesh.cpp:58-103 | reading one more line either propagates an earlier abort or applies that line to the vectors read so far |
| ObjParse.GetlineStep | src/Mesh.cpp:58-103 | one iteration either aborts the whole loop or extends the vectors read so far by that line |
| ObjParse.PositionLineRead | src/Mesh.cpp:60-66 | one more `v ` line appends its text to `tempVertices`; nothing else changes |
| ObjParse.TexCoordLineRead | src/Mesh.cpp:67-73 | one more `vt` line appends the text after its third character to `tempUVs`; nothing else changes |
| ObjParse.FaceLineRead | src/Mesh.cpp:74-101 | one more `f ` line makes exactly the fan's `processFaceVertex` calls on the vectors read so far |
| ObjParse.ParseLinesSeparates | src/Mesh.cpp:57-103 | without a bare `vt` line, `tempVertices` and `tempUVs` list the `v ` and `vt` lines in file order, and the index lists hold each face token's entries in face-encounter order, with no deduplication |
| ObjParse.ToUnsigned | src/Mesh.cpp:140-141 | pushing an `int` onto an `unsigned int` vector keeps non-negative values and adds 2^32 to negative ones |
| ObjParse.ProcessToken | src/Mesh.cpp:132-155 | `processFaceVertex` leaves both tables alone and appends the token's position entry to `vertexIndices` and its texture entry to `uvIndices` |
| ObjParse.ParsedEntries | src/Mesh.cpp:140-149 | a token read as position `p` and, maybe, texture `t` pushes `p` onto `vertexIndices`, and pushes `t` onto `uvIndices` exactly when it is present |
| ObjParse.EntryShape | src/Mesh.cpp:137-154 | a token adds at most one position index, adds one exactly when it starts with an integer, and adds a texture index only together with a position index |
| ObjParse.RenderedTokenEntries | src/Mesh.cpp:138-150 | `p/t` and `p/t/n` push `p` and `t`; `p//n` and `p` push `p` alone |
| ObjParse.ProcessTokens | src/Mesh.cpp:90-96 | calls `processFaceVertex` on each token of one face, in the order the fan loop passes them on; its effect is stated by `ObjParse.ProcessTokensEntries` |
| ObjParse.ProcessTokensEntries | src/Mesh.cpp:90-96 | the calls of one face append the tokens' entries to the index lists in call order, and leave the tables alone |
| ObjParse.EntryCounts | src/Mesh.cpp:137-154 | `vertexIndices` grows by at most one per call, and by exactly one per call exactly when every token is accepted; `uvIndices` never grows more than `vertexIndices` |
| ObjParse.IndexListsBounded | src/Mesh.cpp:58-103 | after the loop, `uvIndices` is at most as long as `vertexIndices`; `vertexIndices` is at most as long as the number of calls, and equally long exactly when every token is accepted |
| ObjParse.TriangleFacesCount | src/Mesh.cpp:87-96 | a file whose faces all have three tokens makes three calls per face |
| ObjParse.TriangleFacesEntries | src/Mesh.cpp:86-96 | a file of triangles whose tokens are all accepted gives three `vertexIndices` entries per face |
| ObjParse.MissingTexCoordShortensUVs | src/Mesh.cpp:143-149 | an accepted `p//n` or `p` token leaves `uvIndices` strictly shorter than `vertexIndices` |
| Face.ProcessFaceVertex | src/Mesh.cpp:137-154 | every format starts with `%d`, so the cascade accepts a token exactly when `%d` reads an integer from it, and that integer is the position index |
| Face.ProcessFaceVertexGrammar | src/Mesh.cpp:137-154 | the three-format cascade accepts a token exactly when it starts with an integer; the texture index is present exactly when `/` and a second integer follow |
| Face.NoLeadingInteger | src/Mesh.cpp:151-154 | a token that does not start with an integer fails all three formats |
| Face.SlashInteger | src/Mesh.cpp:138-141 | `p/t...` satisfies the first format and yields `p` and `t` |
| Face.SlashOnly | src/Mesh.cpp:143-149 | `p/` followed by something other than an integer yields `p` alone |
| Face.NoSlash | src/Mesh.cpp:147-149 | an integer not followed by `/` yields `p` alone, through the third format |
| Face.ParsesAs | src/Mesh.cpp:137-150 | the cascade's result follows from the token's leading integer and what comes after it |
| Face.RenderedTokenParses | src/Mesh.cpp:138-150 | each of the four shapes `p`, `p/t`, `p/t/n` and `p//n` parses back to its position index and, when present, its texture index |
| Face.FanFrom | src/Mesh.cpp:90-96 | iteration `i` of the loop passes corners 0, `i + 1` and `i + 2`; `3 * (k - 2 - i)` calls remain |
| Face.FaceCalls | src/Mesh.cpp:87-101 | a triangle is passed on as written; a quad is passed on as `t0 t1 t2 t0 t2 t3`; any other arity makes no calls |
| Scanf.ScanDecimalConsumes | src/Mesh.cpp:138 | a successful `%d` reads at least one character, leaves a suffix of the token unread, and stops where the digits end |
| Scanf.SscanfStores | src/Mesh.cpp:138-147 | `sscanf` stores no more values than its format has conversions; a format starting with `%d` stores something exactly when `%d` succeeds, and the first value is that integer |
| Scanf.ScanIntText | src/Mesh.cpp:138-147 | `%d` reads back the integer written in decimal, with or without a minus sign, and stops where the numeral ends |
| Resolution.Slot | src/Mesh.cpp:112-113 | `index - 1` in `unsigned` arithmetic: indices from 1 move down by one, and index 0 wraps to 2^32 - 1 |
| Resolution.SlotInTable | src/Mesh.cpp:112-113 | for a table of fewer than 2^32 entries, `index - 1` selects an entry exactly when the 1-based index is between 1 and the table's length |
| Resolution.OneBasedLookup | src/Mesh.cpp:112-113 | a face that names entry `k`, counting from 1, reads entry `k - 1` |
| Resolution.NegativeIndexMisses | src/Mesh.cpp:112-113 | a negative index wraps to a huge unsigned value and never selects an entry of a table of fewer than 2^31 entries |
| Resolution.ResolvableIndices | src/Mesh.cpp:112-113 | vertex `i` can be built exactly when both its indices are between 1 and their table's length and `uvIndices` has an entry `i` |
| Resolution.ResolvePrefix | src/Mesh.cpp:109-120 | the loop succeeds exactly when every read is in bounds, and then output vertex `i` is position `vertexIndices[i] - 1` with texture coordinate `uvIndices[i] - 1`; otherwise it reports the first vertex with a read out of bounds |
| Resolution.SourceResolve | src/Mesh.cpp:109-120 | the loop as written, defined only when every read is in bounds; it yields one vertex per `vertexIndices` entry |
| Resolution.ResolveStep | src/Mesh.cpp:109-120 | one iteration either hits an out-of-bounds read, so the loop fails, or appends vertex `i` |
| Resolution.Resolve | src/Mesh.cpp:109-120 | the checked loop succeeds exactly where the unchecked loop is defined, then gives the same vertices, and otherwise reports a vertex whose reads are out of bounds after only in-bounds ones |
| Resolution.ShortUVsUnresolvable | src/Mesh.cpp:113 | when `uvIndices` is shorter than `vertexIndices`, the unchecked loop reads past the end of `uvIndices` |
| MeshModel.Load | src/Mesh.cpp:40-129 | a name without `.obj` fails before anything is read; a file that cannot be opened fails; success sets the loaded flag, keeps the earlier vertices, and adds exactly one vertex per `vertexIndices` entry |
| MeshModel.LoadSucceeds | src/Mesh.cpp:46-125 | a load succeeds exactly when the name contains `.obj`, no line is a bare `vt` and every read is in bounds; output vertex `i` then comes from entries `vertexIndices[i] - 1` and `uvIndices[i] - 1` |
| MeshModel.LoadObjFile | src/Mesh.cpp:40-129 | the loader written with the source's loops returns true exactly when `Load` succeeds, with the same mesh; it ends with the `std::out_of_range` of `substr(3)` exactly when `Load` reports a bare `vt` line; in every other case it returns false; except on success the mesh is unchanged |
| MeshModel.Draw | src/Mesh.cpp:187-190 | `draw()` does nothing on a mesh that is not loaded, and otherwise issues one triangle draw over all its vertices; what it draws after a load is stated by `MeshModel.DrawAfterLoad` |
| MeshModel.DrawAfterLoad | src/Mesh.cpp:185-190 | `draw()` on a new mesh does nothing; after a successful load it draws once, over one vertex per `vertexIndices` entry |
| MeshModel.TriangleFileVertexCount | src/Mesh.cpp:87-120 | a loaded file of triangles of accepted tokens has three output vertices per face |
| MeshModel.MissingTexCoordRejected | src/Mesh.cpp:143-149 | a single accepted token without a texture index takes the unchecked loop out of bounds and makes the load fail |
| MeshModel.FirstVertexRejected | src/Mesh.cpp:109-113 | when the first vertex's reads are out of bounds, the load reports exactly that read |
| Scenarios.RenderIsWord | src/Mesh.cpp:81-84 | every token shape is a single whitespace-free word |
| Scenarios.TriangleLineCalls | src/Mesh.cpp:74-96 | `f a b c` is a face line whose calls are its three tokens, in order |
| Scenarios.TriangleLineRead | src/Mesh.cpp:74-96 | reading `f a b c` appends the corners' position indices, and whichever texture indices they carry, in corner order |
| Scenarios.ThreePositionLines | src/Mesh.cpp:60-66 | three `v ` lines give three positions in file order |
| Scenarios.ThreeTexCoordLines | src/Mesh.cpp:60-73 | three `v ` lines then three `vt` lines give three positions and three texture coordinates in file order |
| Scenarios.TexturedTriangleTables | src/Mesh.cpp:57-103 | the textured triangle `f 1/1 2/2 3/3` gives index lists `1 2 3` and `1 2 3` |
| Scenarios.IdentityResolves | src/Mesh.cpp:109-120 | indices `1 2 3` on both lists pair the entries of both tables in order |
| Scenarios.TexturedTriangleLoads | src/Mesh.cpp:40-125 | the textured triangle loads as three vertices, pairing position `i` with texture coordinate `i`, and the mesh is marked loaded |
| Scenarios.UntexturedTriangleTables | src/Mesh.cpp:57-103 | three `v ` lines then an untextured triangle leave `uvIndices` empty |
| Scenarios.UntexturedTriangleRejected | src/Mesh.cpp:109-113 | for `f 1//1 2//2 3//3` the unchecked loop reads `uvIndices[0]` of an empty vector, and the load reports the missing texture index of vertex 0 |
| Scenarios.FarCornerRejected | src/Mesh.cpp:112 | a first corner past the three defined positions, such as `5`, reads past the end of `tempVertices`, and the load reports that position index |

## Left out

- File opening and reading are not modelled. The file arrives as its lines, or as `None` when it cannot be opened. The `cout`/`cerr` messages are not modelled either.
- `initBuffers`, `draw` and the destructor issue OpenGL calls. Only the loaded-flag guard of `draw` is modelled (`MeshModel.Draw`), as the count it would draw.
- Coordinates are not parsed as floating-point numbers. Each stays the unparsed text of its line.
- Scanf.ScanDecimal: `%d` overflow is undefined behaviour in C and is not modelled; a numeral of any length reads as its exact value.
- Scanf.Sscanf: the `EOF` return value is not modelled; it cannot change the three comparisons, because every token is non-empty and free of whitespace.
- `isspace` is modelled for the "C" locale only.
- `getline` splitting is left out: lines arrive already split, so a stray `\r` stays part of its line.
- The importer-backed revision of the class is not part of this model. It wraps a third-party library.
- MeshModel.Draw: `mVertices.size()` is not modelled as the `GLsizei` count that `draw` passes on.
- MeshModel.LoadSucceeds: out-of-bounds reads are modelled as an error; the source's undefined behaviour is not modelled.
- MeshModel.LoadObjFile: an out-of-bounds read of the resolution loop, undefined behaviour in the source, returns false without touching the mesh.

## Findings

| source | as written | input that shows it | evidently intended | confidence | as-written member | corrected member |
|---|---|---|---|---|---|---|
| src/Mesh.cpp:143-149, 113 | `p//n` and `p` tokens push a position index but no texture index, yet the resolution loop reads `uvIndices[i]` for every `i` below `vertexIndices.size()` | three `v` lines and `f 1//1 2//2 3//3`: `uvIndices` stays empty and `uvIndices[0]` is read | a face token without a texture index must not lead to an unchecked read: the load should fail or supply a texture index | not executed | Resolution.SourceResolve, Scenarios.UntexturedTriangleRejected | Resolution.ResolvePrefix, MeshModel.Load |
