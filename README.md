# Shape data model of a 2D vector-drawing surface

This project models the core data of a small WebGL drawing program: the shape
objects that the canvas draws, the decoding of their colour strings into
normalised RGBA, and the 3x3 matrix arithmetic their transforms use.

- `gl_model.dfy` (module `GLModel`): the `Vertex2D` point record and the
  `GeometryType` enumeration (`Line`, `Square`, `Polygon`).
- `matrix_utils.dfy` (module `MatrixUtils`): row-major 3x3 matrices as nine
  exact reals. `CreateIdentityMatrix` is the identity literal. `MultiplyMatrix`
  is the source's triple loop with a running sum. It writes into a fresh
  nine-entry array and is proved equal to the specification function
  `Multiply`. Lemmas about `Multiply` give the entry formula, the two identity
  laws and associativity. Another lemma shows that only entries 0..8 of each
  argument matter.
- `gl_objects.dfy` (module `GLObjects`): colour decoding as pure functions.
  `ExpandShorthand` is the shorthand replacement. `ExecFullHex` is the
  six-digit match, returning its capture groups or `None`. `ParseHexPair` is
  base-16 parsing of one group. `DecodeColor` is the whole of `getColor`.
  The module also holds the three shape classes. `BaseGeometry` has a type tag
  fixed at construction, a transform that starts as the identity, and a colour
  string that starts as `#000000`. `SquareGeometry` adds a centre and a size.
  `LineGeometry` adds two endpoints.

Design choices:

- Class inheritance (`SquareGeometry extends BaseGeometry`) is modelled by
  composition. Each square or line owns a `const base: BaseGeometry` that its
  constructor allocates fresh. The inherited members (`GetColor`, `SetColor`,
  `GetType`, `GetProjectionMatrix`) are reached through `base`.
- The type tag is a `const`, so it cannot change after construction. A bare
  base object leaves the tag undefined, so its type is `Option<GeometryType>`.
  `BaseGeometry.Tagged(t)` is the base constructor followed by the subclass's
  assignment of its tag.
- The hex class `[a-f\d]` with the case-insensitive flag is exactly
  `[0-9a-fA-F]`: `\d` is `[0-9]`, and without the unicode flag no non-ASCII
  character folds onto an ASCII letter. `$` without the multiline
  flag matches only at the end of the input.
- Numbers are exact: coordinates, sizes and matrix entries are `real`, and a
  colour channel is a byte divided by 255 as an exact rational.
- `FormatByte` and `HexDigitChar` are not in the source. They are a reference
  encoder. `DecodeFormatted` uses them to show that every byte triple is
  decoded exactly.
- src/utils/GLObjects.ts has no transform setter and no raw-colour getter;
  the raw colour string is the `color` field. The model follows that code.
- `Vertex2D` and `GeometryType` (src/models/GLModel.ts:1-9) are types, not
  operations, so they have no row in the table below; the constructors and
  setters that use them do.

## Model

| member | source | states |
|---|---|---|
| `MatrixUtils.CreateIdentityMatrix` | src/utils/MatrixUtils.ts:43-45 | nine entries; entry (i, j) is 1 on the diagonal and 0 elsewhere |
| `MatrixUtils.MultiplyMatrix` | src/utils/MatrixUtils.ts:3-26 | the triple loop returns exactly nine entries, equal to the matrix product of the two arguments; it needs at least nine entries in each argument |
| `MatrixUtils.MultiplyEntries` | src/utils/MatrixUtils.ts:17-23 | the product has nine entries, and entry (i, j) is the sum over k < 3 of mat1[i*3+k] * mat2[k*3+j] |
| `MatrixUtils.MultiplyReadsFirstNine` | src/utils/MatrixUtils.ts:8-23 | two pairs of arguments that agree on entries 0..8 have the same product; the lengths are never used |
| `MatrixUtils.MultiplyIdentityLeft` | src/utils/MatrixUtils.ts:17-23 | identity times M is M for every nine-entry M |
| `MatrixUtils.MultiplyIdentityRight` | src/utils/MatrixUtils.ts:17-23 | M times identity is M for every nine-entry M |
| `MatrixUtils.MultiplyAssociative` | src/utils/MatrixUtils.ts:17-23 | (A B) C equals A (B C) over exact arithmetic |
| `MatrixUtils.AssociativeEntry` | src/utils/MatrixUtils.ts:20-22 | entry (i, j) of (A B) C equals entry (i, j) of A (B C) |
| `MatrixUtils.LeftProductExpanded` | src/utils/MatrixUtils.ts:17-23 | entry (i, j) of (A B) C is the sum over k and l of A[i][k] B[k][l] C[l][j] |
| `MatrixUtils.RightProductExpanded` | src/utils/MatrixUtils.ts:17-23 | entry (i, j) of A (B C) is the same double sum |
| `GLObjects.HexDigitValue` | src/utils/GLObjects.ts:32-34 | a hex digit of either case has a value in 0..15 |
| `GLObjects.ExpandShorthand` | src/utils/GLObjects.ts:23-27 | a whole 3-digit shorthand becomes its six digits doubled (digit i of the result is shorthand digit i/2), without `#`; any other string is unchanged |
| `GLObjects.ExecFullHex` | src/utils/GLObjects.ts:29 | a match exists exactly when the string is `#?` plus six hex digits; the three groups are the hex pairs at digits 0-1, 2-3 and 4-5 after the optional `#` |
| `GLObjects.ParseHexPair` | src/utils/GLObjects.ts:32-34 | a two-digit group parses to a byte in 0..255 |
| `GLObjects.DecodeColor` | src/utils/GLObjects.ts:22-38 | decoding is total: four components, each in [0, 1], alpha 1 |
| `GLObjects.DecodeFullHex` | src/utils/GLObjects.ts:29-36 | on `#?RRGGBB` each channel is its digit pair read in base 16 and divided by 255, and alpha is 1 |
| `GLObjects.DecodeShorthand` | src/utils/GLObjects.ts:23-29 | a 3-digit shorthand decodes like its doubled six-digit form, with or without `#` |
| `GLObjects.DecodeFallback` | src/utils/GLObjects.ts:29-37 | no match exactly when the string is neither a 3-digit nor a 6-digit hex colour; then the result is opaque white |
| `GLObjects.DecodeHashOptional` | src/utils/GLObjects.ts:24-29 | prefixing `#` to a string that does not start with `#` does not change its decoding |
| `GLObjects.LowercaseHexDigit` | src/utils/GLObjects.ts:24-29 | lower-casing keeps a character a hex digit (or a non-digit) and keeps its value |
| `GLObjects.LowercaseExpandShorthand` | src/utils/GLObjects.ts:24-27 | lower-casing commutes with shorthand expansion and keeps shorthand recognition |
| `GLObjects.LowercaseDecodeExpanded` | src/utils/GLObjects.ts:29-34 | lower-casing keeps the six-digit match and the three parsed bytes |
| `GLObjects.DecodeIgnoresCase` | src/utils/GLObjects.ts:24-36 | lower-casing a colour string does not change its decoding |
| `GLObjects.DecodeFormatted` | src/utils/GLObjects.ts:29-36 | `#` plus the hex spelling of bytes (r, g, b) decodes to r/255, g/255, b/255, 1 |
| `GLObjects.DecodeWhiteSpellings` | src/utils/GLObjects.ts:23-36 | `#FFFFFF`, `ffffff` and `#fff` all decode to [1, 1, 1, 1] |
| `GLObjects.DecodeShorthandExample` | src/utils/GLObjects.ts:23-29 | `#03F` decodes like `0033FF` |
| `GLObjects.DecodeDefaultColor` | src/utils/GLObjects.ts:11 | the default colour `#000000` decodes to opaque black [0, 0, 0, 1] |
| `GLObjects.DecodeNotAColor` | src/utils/GLObjects.ts:37 | `not-a-color` decodes to the white fallback |
| `GLObjects.BaseGeometry.constructor` | src/utils/GLObjects.ts:9-12 | a bare shape has no type tag, the identity transform and colour `#000000` |
| `GLObjects.BaseGeometry.Tagged` | src/utils/GLObjects.ts:9-12 | the base state with the given type tag, identity transform and colour `#000000` |
| `GLObjects.BaseGeometry.GetProjectionMatrix` | src/utils/GLObjects.ts:14-16 | returns the stored transform, always nine entries |
| `GLObjects.BaseGeometry.GetType` | src/utils/GLObjects.ts:18-20 | returns the tag fixed at construction |
| `GLObjects.BaseGeometry.GetColor` | src/utils/GLObjects.ts:22-38 | the stored string decoded: four components in [0, 1], alpha 1 |
| `GLObjects.BaseGeometry.SetColor` | src/utils/GLObjects.ts:44-46 | stores the string verbatim, keeps the transform, and a later GetColor decodes that string; well-formedness is kept |
| `GLObjects.SquareGeometry.constructor` | src/utils/GLObjects.ts:53-64 | type Square, centre (x, y), the given size (default 0) and colour (default `#000000`), identity transform |
| `GLObjects.SquareGeometry.GetCenter` | src/utils/GLObjects.ts:66-68 | returns the centre |
| `GLObjects.SquareGeometry.SetCenter` | src/utils/GLObjects.ts:70-72 | replaces the centre; the size and the base state are unchanged, so well-formedness is kept |
| `GLObjects.SquareGeometry.GetSize` | src/utils/GLObjects.ts:74-76 | returns the size |
| `GLObjects.SquareGeometry.SetSize` | src/utils/GLObjects.ts:78-80 | replaces the size; the centre and the base state are unchanged, so well-formedness is kept |
| `GLObjects.LineGeometry.constructor` | src/utils/GLObjects.ts:93-99 | type Line, endpoints (x1, y1) and (x2, y2), the given colour, identity transform |
| `GLObjects.LineGeometry.GetPoint1` | src/utils/GLObjects.ts:101-103 | returns the first endpoint |
| `GLObjects.LineGeometry.GetPoint2` | src/utils/GLObjects.ts:105-107 | returns the second endpoint |
| `GLObjects.LineGeometry.SetPoint1` | src/utils/GLObjects.ts:109-111 | replaces the first endpoint; the second endpoint and the base state are unchanged, so well-formedness is kept |
| `GLObjects.LineGeometry.SetPoint2` | src/utils/GLObjects.ts:113-115 | replaces the second endpoint; the first endpoint and the base state are unchanged, so well-formedness is kept |

## Left out

- `convertToPoints` (src/utils/GLObjects.ts:40-42 and 86): an empty stub with no behaviour.
- Aliasing of the transform. `getProjectionMatrix` returns the internal array by reference, and callers may mutate it. The model keeps the transform as a value (`seq<real>`), so such mutation through the returned array is not captured.
- GLObjects.SquareGeometry.GetCenter, GLObjects.LineGeometry.GetPoint1 and GLObjects.LineGeometry.GetPoint2: the source returns the internal `{x, y}` object by reference, so a caller can change a shape's centre or endpoint through it. The model returns a `Vertex2D` value, so such mutation through the returned object is not captured.
- IEEE floating point: the division by 255 and the matrix sums are exact `real` arithmetic. Rounding is not modelled.
- MatrixUtils.MultiplyMatrix: arguments with fewer than nine entries are excluded by its precondition. The source would read `undefined` there and produce NaN entries, which exact reals cannot represent.
- `parseInt` in general: it is only ever applied to a two-digit hex group, and `ParseHexPair` models exactly that case.
- The numeric values of the `GeometryType` enumeration (0, 1, 2) are not modelled; only the distinct variants are.
- src/utils/GLObjects.ts defines no polygon class, so no class here uses the `Polygon` variant of `GeometryType`.
- The WebGL wrapper (src/utils/GLHelper.ts) and the file download helper (src/utils/DownloadFile.ts) are browser I/O and foreign calls. They are not part of this model.
