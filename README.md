# flamed core in Dafny

A model of the computational core of `flamed`, an interactive fractal-flame
editor. A flame is a collection of IFS transforms (`FlameMaps`): an ordered
list of `FlameMapping`s, a distinguished final mapping, and two HDR tone
parameters. Each `FlameMapping` is `postMap ∘ variation ∘ preMap` plus a colour
and a colour-blend weight (`colorSpeed`). The model covers three parts of
`compute_flames.cpp`:

- **The file format** (`FlameMaps::save` / `FlameMaps::load`), in
  `flame_file.dfy`. A file is a token sequence: `FlamEd V1`, the HDR exposure
  and power, the final map, then zero or more `--`-prefixed maps, then `----`.
  `load` fills a temporary and copies it into the receiver only when every
  step succeeded. How a single real or map block is spelled is left to the
  element stream operators, which the model takes as a caller-supplied
  `FieldCodec` with fixed-length map blocks.
- **The chaos-game generator** (`CPUFlameEngine::generate`), in
  `chaos_game.dfy`. It fills an `array<IFSPoint>`, using a sequence of random
  draws in place of `rand()`. Its result is tied to the specification
  function `Run` (the running point and colour after k iterations).
- **The edit operations** (`FlameMapping::translate`, `::scale`, `::rotate`),
  in `edit.dfy`. Each is a method on `EditableMapping`, an object whose fields
  mirror the `FlameMapping` struct. The finite-difference probes run on a copy,
  and the result is tied to a specification function (`Translated`, `Scaled`,
  `Rotated`).

`geometry.dfy` holds the 2D vectors, 2x2 matrices, affine maps and colours, and
`flame_mapping.dfy` the `FlameMapping` value and its combined map. Floating
point is modelled by exact reals. The matrix `M22f(a, b, c, d)` is taken to
pack rows, so `(x, y)` maps to `(a x + b y, c x + d y)`.

Two behaviours of the code are worth knowing, and the model keeps both:
- `load` accepts a file with no `--` map at all. Only the generator needs a
  non-empty map list, and there it is a precondition.
- A singular Jacobian is not detected by the edit operations. The inverse is
  whatever the caller-supplied `inv` returns.

## Model

| member | source | states |
|---|---|---|
| `FlameFile.FlameMaps.Save` | compute_flames.cpp:120-129 | writes `FlamEd V1`, the two HDR scalars, the final map, then `--` and each map in index order, then `----`; when each of this collection's own fields reads back as written, loading the output gives back exactly this collection |
| `FlameFile.FlameMaps.Load` | compute_flames.cpp:142-165 | returns true exactly when the tokens parse. On true the receiver holds the parsed collection. On false the receiver is unchanged |
| `FlameFile.Parse` | compute_flames.cpp:146-152 | success implies that the first token is `FlamEd`, the second is `V1`, and the map list after the header block reads successfully |
| `FlameFile.ReadMapsLayout` | compute_flames.cpp:154-161 | a successfully read map list is one `--` plus one block per loaded map, in file order, followed by `----` at the position right after the last block |
| `FlameFile.LayoutReadMaps` | compute_flames.cpp:154-161 | conversely, such a layout is read as exactly those maps, in that order |
| `FlameFile.ParseCharacterised` | compute_flames.cpp:142-165 | `load` yields snapshot s iff the header is right, the scalars and final map decode to s's, and the rest is s's maps as `--` blocks closed by `----`; so the map count equals the number of separators read |
| `FlameFile.MapsTokensSnoc` | compute_flames.cpp:126-127 | saving one more map appends exactly one `--` and that map's block to the output |
| `FlameFile.ReadMapsTokens` | compute_flames.cpp:126-128 | the map list as written (separators, blocks, terminator) reads back as the same list, when each of its maps is written as a fixed-length block that reads back as that map |
| `FlameFile.LoadSave` | compute_flames.cpp:120-165 | `load(save(x)) == x` for every collection x whose own fields (the two HDR scalars, the final map, each listed map) read back as written; nothing is asked of other values, so a fixed-precision format qualifies |
| `ChaosGame.Generate` | compute_flames.cpp:169-192 | runs N + 20 iterations and writes exactly N slots, 0..N-1 in order. Slot i is the running point after iteration 20 + i, seen through the final map, with the running colour |
| `ChaosGame.SelectMap` | compute_flames.cpp:180 | the chosen map index lies in [0, nMaps) whenever nMaps > 0 |
| `ChaosGame.FinalMapOnlyShapesOutput` | compute_flames.cpp:182-187 | the running state does not take the final map, so two final maps give the same colour in every written slot, and their positions are the two maps applied to the same running point |
| `ChaosGame.RunColorInGamut` | compute_flames.cpp:176-183 | the running colour starts at white. It stays in [0,1]^3 when every map's colour is in [0,1]^3 and every colorSpeed is in [0,1] |
| `ChaosGame.OutputColorInGamut` | compute_flames.cpp:183-187 | so every written colour is in gamut under the same conditions |
| `ChaosGame.RunStaysAtFixedOrigin` | compute_flames.cpp:174-182 | the running point starts at the origin. It stays there when every map fixes the origin |
| `ChaosGame.OutputAtFixedOrigin` | compute_flames.cpp:182-186 | if the final map also fixes the origin, every written position is the origin |
| `ChaosGame.SingleMapColor` | compute_flames.cpp:176-183 | with one map, the colour after k iterations is the map's colour plus (1 - colorSpeed)^k times (white - that colour). This is the recurrence col := s*m.col + (1-s)*col, solved |
| `ChaosGame.SingleMapStep` | compute_flames.cpp:183 | one iteration with a single map shrinks the remaining distance to white by the factor 1 - colorSpeed |
| `ChaosGame.SingleFullSpeedMapColor` | compute_flames.cpp:183-187 | with one map of colorSpeed 1, every written colour is exactly that map's colour |
| `Geometry.Blend` | compute_flames.cpp:183 | the blended colour lies between the map's colour and the running colour when the weight is in [0,1]. Weight 1 gives the map's colour and weight 0 the running colour |
| `FlameMappings.WithSelected` | compute_flames.cpp:54 | replacing the affine map that `editPreTrans` selects leaves the other affine map, the variation, the colour and colorSpeed as they were |
| `Edit.FitStep` | compute_flames.cpp:40-50 | the solved step `inv(J) * df` is zero when the requested displacement is zero |
| `Edit.ClampBound` | compute_flames.cpp:51-53 | a translation step of length at most 2 is kept. A longer one becomes a positive multiple less than 1 of itself, with length exactly 2 |
| `Edit.Translated` | compute_flames.cpp:35-56 | translate changes only the selected affine map's translation: its matrix, the other affine map, the variation, the colour and colorSpeed are kept |
| `Edit.TranslateMoveBound` | compute_flames.cpp:51-55 | translate moves the selected translation by at most length 2 |
| `Edit.TranslateStill` | compute_flames.cpp:35-56 | a zero displacement leaves the mapping unchanged |
| `Edit.Scaled` | compute_flames.cpp:58-81 | scale changes only the selected affine map's matrix. Its translation, the other affine map, the variation, the colour and colorSpeed are kept |
| `Edit.ScaledColumns` | compute_flames.cpp:76-80 | scale multiplies entries a and c by 1 + dx and entries b and d by 1 + dy, so the determinant changes by (1 + dx)(1 + dy) |
| `Edit.ScaleColumnsFacts` | compute_flames.cpp:77-80 | scaling the columns keeps each column's direction (a'c = c'a, b'd = d'b) and scales the determinant by the product of the factors |
| `Edit.ScaleStill` | compute_flames.cpp:58-81 | a zero displacement leaves the mapping unchanged |
| `Edit.Rotated` | compute_flames.cpp:83-107 | rotate changes only the selected affine map's matrix. Its translation, the other affine map, the variation, the colour and colorSpeed are kept |
| `Edit.RotatedDet` | compute_flames.cpp:104-106 | when cos^2 + sin^2 = 1, the new matrix (1 + dscale) R(dtheta) M has determinant (1 + dscale)^2 det M. The rotation part preserves area |
| `Edit.RotateStill` | compute_flames.cpp:83-107 | a zero displacement leaves the mapping unchanged, given cos 0 = 1 and sin 0 = 0 |
| `Edit.EditableMapping.Translate` | compute_flames.cpp:35-56 | probes a copy by moving the translation x by delta, then undoing it and moving y by delta. Only then does it add the clamped step to the receiver's selected translation. The new value is `Translated` of the old one, and the unselected affine map is untouched |
| `Edit.EditableMapping.Scale` | compute_flames.cpp:58-81 | probes column a/c, then column b/d from a fresh copy. It then rescales the receiver's selected matrix column by column. The new value is `Scaled` of the old one, and the unselected affine map is untouched |
| `Edit.EditableMapping.Rotate` | compute_flames.cpp:83-107 | probes the rotation by delta, then the uniform scale 1 + delta from a fresh copy. It then left-multiplies the receiver's selected matrix by (1 + dscale) R(dtheta). The new value is `Rotated` of the old one, and the unselected affine map is untouched |

## Left out

- Floating point: all arithmetic is exact real arithmetic. Undoing `c.x += delta` with `c.x -= delta` restores the copy exactly here, which a `float` need not do.
- The element stream operators for `AffineMap`, the variation, the colour and `colorSpeed`, and `FlameMapping::map`, are declared in `compute_flames.h`. That header is not part of this model. The map is taken to be `postMap(variation(preMap(p)))`. The field formats are a caller-supplied codec. `precision(8)` and whitespace are not modelled.
- Stream failure. `loadMap` always returns true, but a field that fails to extract sets the stream's failbit, and every later `in >> s` then leaves `s` as it was. The model's codec reads every token as some value and never fails, so it does not capture either consequence:
  - a malformed HDR scalar or final-map field leaves `s == "V1"`, so `load` returns false; the model's `Load` returns true for such a file when the rest of it is well formed.
  - a malformed field inside a `--` block, or a file cut off anywhere after a `--` (including inside a block), leaves `s == "--"`, so the loop never ends, pushing one default map per pass. The model's `Load` returns false when it runs out of tokens, and returns true on a malformed field. The non-terminating loop itself is not modelled.
- The default-constructed temporary is taken to have an empty map list.
- The numerical content of the fit: the 2x2 inverse (singular or not), `sqrt` and `cos`/`sin` are parameters (`Edit.Numerics`). Properties that need them to behave assume it explicitly: `ExactSqrt`, `TrigAtZero`, `Pythagorean`. How accurately the finite-difference step achieves `df` is not stated.
- `rand()` is replaced by a caller-supplied sequence of non-negative draws, one per iteration. The GL buffer mapping (`mapBuffer`/`unmapBuffer`) is replaced by a plain array.
- The `int` loop counter and `size()` conversions of `generate` are modelled as unbounded integers.
- `flamed.h` and `flames.h`: GUI widgets, GL resources and undo/redo history; they hold no core logic.
