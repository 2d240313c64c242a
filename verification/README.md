# Head-tracking receiver: axis remapping and calibration

A Dafny model of the deterministic core of `GalaxyBudsReceiver`, the camera
script that turns orientation quaternions streamed by earbuds into the
rotation of a target object. The core has four parts:

- **Mapping catalog** (`mapping.dfy`, module `Mappings`). The generator
  walks 6 axis permutations (outer loop) and 8 sign vectors (inner loop). It
  produces 48 remappings and 48 labels such as `(-z, +x, -y)`. A remapping
  puts `v[perm[t]] * sign[t]` into slot `t` of the vector part and passes
  `w` through. After generating, the generator searches the labels for a
  preferred one to choose the default selection.
- **Mapping selector** (`receiver.dfy`, `Cycle` and `Commit`). It holds the
  current index. The cycle key advances the index with C#'s `%`. The commit
  key stores the index under `mapping_index`.
- **Calibration** (`Calibrate`, `Startup`). The calibrate key sets the
  offset to the inverse of the last mapped sample, raises the calibrated
  flag and stores the offset under `calib_x` … `calib_w`. Start-up restores
  both the index and the calibration from the store. Nothing ever lowers the
  flag.
- **Per-sample pipeline** (`OnSample`). The handler drops a message with
  fewer than four values, or any message when there is no target. Otherwise
  it maps the sample through the selected entry and remembers the result.
  It writes `offset * mapped` to the target only once calibrated, and
  otherwise it warns.

Quaternions (`quaternion.dfy`) are four reals. `Mul` is the Hamilton
product in the engine's component order. `Inverse` is the conjugate, which
is the exact inverse of a unit quaternion. The preferences store is a
`map<string, Pref>` carried inside the receiver `State`. Key presses and
messages are `Action`s. `RunTrace` replays a sequence of them and collects
the rotations written to the target.

The default selection follows the code, not its evident intent. Every
label carries an explicit sign glyph (`SignLabel`, line 159), so each label
is 12 characters long. The searched-for literal `"(-z, x, -y)"` is 11
characters long. The search therefore returns -1 and the selection stays
at index 0 (`PreferredLabelAbsent`). The candidate the literal describes is
labelled `"(-z, +x, -y)"` and sits at index 37 (`IntendedCandidateAt37`).
The comment on line 153 states the intent: force the initial mapping to
`(-z, x, -y)` if it is present. The model follows the code.

A mapping change does not clear or adjust the calibration (`Cycle` keeps
the offset and flag). The offset taken under the previous mapping stays in
force until the next calibration.

## Model

| member | source | states |
|---|---|---|
| Mappings.Apply | Unity_Script_To_Put_On_The_Camera/GalaxyBudsReceiver.cs:136-145 | slot t of the result is source axis perm[t] times sign[t]; w is passed through unchanged |
| Mappings.ApplyPreservesNorm | Unity_Script_To_Put_On_The_Camera/GalaxyBudsReceiver.cs:136-145 | a signed permutation keeps the squared norm, so a unit sample stays a unit quaternion after mapping |
| Mappings.InverseUndoesApply | Unity_Script_To_Put_On_The_Camera/GalaxyBudsReceiver.cs:132-145 | every remapping is undone by another remapping that is itself in the catalog |
| Mappings.FirstIsIdentity | Unity_Script_To_Put_On_The_Camera/GalaxyBudsReceiver.cs:112-145 | catalog entry 0 maps every quaternion to itself |
| Mappings.EntryElevenExample | Unity_Script_To_Put_On_The_Camera/GalaxyBudsReceiver.cs:110-145 | entry 11 is permutation (0,2,1) with signs (+,-,-) and maps (1,2,3,4) to (1,-3,-2,4) |
| Mappings.SignLabel | Unity_Script_To_Put_On_The_Camera/GalaxyBudsReceiver.cs:159 | the glyph is one character, "+" exactly for the sign 1 and "-" for every other value |
| Mappings.SignGlyphRoundTrip | Unity_Script_To_Put_On_The_Camera/GalaxyBudsReceiver.cs:147-159 | the glyph of a sign 1 or -1 reads back as that sign |
| Mappings.Label | Unity_Script_To_Put_On_The_Camera/GalaxyBudsReceiver.cs:147-148 | a label is 12 characters "(s a, s a, s a)" whose sign glyphs are exactly '+' or '-' and whose axis names are x, y or z |
| Mappings.ParseLabelOfLabel | Unity_Script_To_Put_On_The_Camera/GalaxyBudsReceiver.cs:147-148 | reading a label back yields exactly the candidate it was made from |
| Mappings.LabelOfParseLabel | Unity_Script_To_Put_On_The_Camera/GalaxyBudsReceiver.cs:147-148 | every string that reads as a label is the label of what it reads as |
| Mappings.LabelInjective | Unity_Script_To_Put_On_The_Camera/GalaxyBudsReceiver.cs:147-159 | two signed permutations have the same label exactly when they are the same candidate |
| Mappings.LabelsDistinct | Unity_Script_To_Put_On_The_Camera/GalaxyBudsReceiver.cs:132-151 | the 48 generated labels are pairwise distinct |
| Mappings.Catalog | Unity_Script_To_Put_On_The_Camera/GalaxyBudsReceiver.cs:110-151 | the catalog has 6 * 8 = 48 entries |
| Mappings.CatalogEntry | Unity_Script_To_Put_On_The_Camera/GalaxyBudsReceiver.cs:132-151 | entry p*8+s pairs permutation p with sign vector s |
| Mappings.CatalogEnds | Unity_Script_To_Put_On_The_Camera/GalaxyBudsReceiver.cs:110-151 | entry 0 is (0,1,2) with (+,+,+), labelled "(+x, +y, +z)"; entry 47 is (2,1,0) with (-,-,-), labelled "(-z, -y, -x)" |
| Mappings.PermutationsComplete | Unity_Script_To_Put_On_The_Camera/GalaxyBudsReceiver.cs:110-118 | the permutation table lists exactly the bijections of {0,1,2} |
| Mappings.SignVectorsComplete | Unity_Script_To_Put_On_The_Camera/GalaxyBudsReceiver.cs:120-130 | the sign table lists exactly the vectors of three signs in {1,-1} |
| Mappings.CatalogWellFormed | Unity_Script_To_Put_On_The_Camera/GalaxyBudsReceiver.cs:132-134 | every catalog entry is a permutation paired with a sign vector |
| Mappings.CatalogComplete | Unity_Script_To_Put_On_The_Camera/GalaxyBudsReceiver.cs:110-151 | a candidate is in the catalog exactly when it is a signed permutation |
| Mappings.CatalogDistinct | Unity_Script_To_Put_On_The_Camera/GalaxyBudsReceiver.cs:110-151 | distinct indices hold distinct remappings |
| Mappings.IndexOf | Unity_Script_To_Put_On_The_Camera/GalaxyBudsReceiver.cs:132-151 | every signed permutation has an index below 48 where the catalog holds it |
| Mappings.FindIndex | Unity_Script_To_Put_On_The_Camera/GalaxyBudsReceiver.cs:154 | the result is -1 exactly when the key is absent, else the position of its first occurrence |
| Mappings.DefaultSelection | Unity_Script_To_Put_On_The_Camera/GalaxyBudsReceiver.cs:153-156 | the selection is a catalog index: the first position of the preferred label when some label equals it, else 0 |
| Mappings.AppendSignVariants | Unity_Script_To_Put_On_The_Camera/GalaxyBudsReceiver.cs:132-150 | one pass of the inner loop appends the 8 sign variants of permutation p, extending the catalog and label prefixes from p*8 to p*8+8 entries |
| Mappings.GenerateMappings | Unity_Script_To_Put_On_The_Camera/GalaxyBudsReceiver.cs:108-157 | the nested loops build exactly the catalog and its labels, and leave the default selection |
| Mappings.PreferredLabelAbsent | Unity_Script_To_Put_On_The_Camera/GalaxyBudsReceiver.cs:153-159 | no label equals "(-z, x, -y)", the search returns -1 and the default selection is 0 |
| Mappings.IntendedCandidateAt37 | Unity_Script_To_Put_On_The_Camera/GalaxyBudsReceiver.cs:153-156 | the candidate the literal describes, labelled "(-z, +x, -y)", is entry 37 and the search for that label finds 37 |
| Quaternions.Mul | Unity_Script_To_Put_On_The_Camera/GalaxyBudsReceiver.cs:101 | the identity rotation is neutral for the product on either side |
| Quaternions.Inverse | Unity_Script_To_Put_On_The_Camera/GalaxyBudsReceiver.cs:56 | the inverse keeps the squared norm, so it is a unit quaternion exactly when its argument is, and the identity is its own inverse |
| Quaternions.InverseCancels | Unity_Script_To_Put_On_The_Camera/GalaxyBudsReceiver.cs:56 | the inverse composed with q on either side leaves the scalar NormSq(q), and the identity for a unit q |
| Receiver.Startup | Unity_Script_To_Put_On_The_Camera/GalaxyBudsReceiver.cs:23-48 | the stored integer index is restored, else 0; calibrated exactly when calib_x is stored, and then the offset is the four stored floats, a missing one read as 0; identity offset otherwise; the handler is bound exactly when the index is in range |
| Receiver.Calibrate | Unity_Script_To_Put_On_The_Camera/GalaxyBudsReceiver.cs:54-63 | the flag is raised, the offset is the inverse of the last mapped sample, its four components are stored and no other key or field changes |
| Receiver.CalibrationCancels | Unity_Script_To_Put_On_The_Camera/GalaxyBudsReceiver.cs:56-57 | after calibration the offset times the last mapped sample is the identity when that sample is a unit quaternion |
| Receiver.CsRem | Unity_Script_To_Put_On_The_Camera/GalaxyBudsReceiver.cs:71 | C#'s remainder keeps the sign of the dividend, stays below the divisor in magnitude and differs from the dividend by a multiple of the divisor, which fixes it uniquely |
| Receiver.WrapInt32 | Unity_Script_To_Put_On_The_Camera/GalaxyBudsReceiver.cs:71 | the 32-bit sum stays in the int range, agrees with the true sum there and differs from it by a multiple of 2^32 |
| Receiver.CycleFromMaxIndex | Unity_Script_To_Put_On_The_Camera/GalaxyBudsReceiver.cs:71 | from the largest int the cycle key wraps to the smallest, whose remainder is -32, outside the catalog |
| Receiver.Cycle | Unity_Script_To_Put_On_The_Camera/GalaxyBudsReceiver.cs:69-73 | a valid index stays valid and advances by one, wrapping from 47 to 0; offset, flag, last sample and store are unchanged |
| Receiver.Commit | Unity_Script_To_Put_On_The_Camera/GalaxyBudsReceiver.cs:76-81 | the store gains exactly the current index under mapping_index; every other key and field is unchanged |
| Receiver.OnSample | Unity_Script_To_Put_On_The_Camera/GalaxyBudsReceiver.cs:84-102 | short messages or a missing target change nothing; otherwise the last sample becomes the mapped one, a warning replaces the write exactly when uncalibrated, and the write is offset * mapped |
| Receiver.Step | Unity_Script_To_Put_On_The_Camera/GalaxyBudsReceiver.cs:51-86 | every action keeps the index valid, only messages write, and no action lowers the calibrated flag |
| Receiver.CycleTimesIndex | Unity_Script_To_Put_On_The_Camera/GalaxyBudsReceiver.cs:71 | cycling k times adds k to the index modulo 48 and changes nothing else |
| Receiver.CyclePeriod | Unity_Script_To_Put_On_The_Camera/GalaxyBudsReceiver.cs:71 | 48 cycles return to the starting state and no smaller positive number of cycles returns to the starting index |
| Receiver.CalibrationIsSticky | Unity_Script_To_Put_On_The_Camera/GalaxyBudsReceiver.cs:14-57 | once calibrated, every sequence of actions leaves the receiver calibrated |
| Receiver.SilentUntilCalibrated | Unity_Script_To_Put_On_The_Camera/GalaxyBudsReceiver.cs:95-99 | an uncalibrated receiver that is never asked to calibrate never writes the target and stays uncalibrated |
| Receiver.RecalibrationZeroes | Unity_Script_To_Put_On_The_Camera/GalaxyBudsReceiver.cs:56-102 | a unit sample, a calibration and the same sample again leave the target at the identity rotation, whatever the mapping |
| Receiver.FirstRun | Unity_Script_To_Put_On_The_Camera/GalaxyBudsReceiver.cs:23-102 | with an empty store: listening on entry 0, a warning for (0,0,0,1), and after calibration exactly one write, the identity |
| Receiver.CommitSurvivesRestart | Unity_Script_To_Put_On_The_Camera/GalaxyBudsReceiver.cs:28-78 | the index committed is the index selected at the next start-up |
| Receiver.CalibrationSurvivesRestart | Unity_Script_To_Put_On_The_Camera/GalaxyBudsReceiver.cs:31-62 | the next start-up restores the flag and the offset a calibration stored |

## Left out

- Network transport: the OSC receiver, its port and address binding, and the decoding of message values to floats (lines 46-48, 88-91). A message is the sequence of its numeric values.
- Unity lifecycle and input polling: `Start` is `Startup`. The three key branches of `Update` are separate actions, run in the order C, Space, V when several keys go down in the same frame. That reading holds for a valid index, which the Space branch keeps valid.
- After an aborted start-up (`listening` false) the key handlers still run with an out-of-range index. `Cycle` (with the 32-bit wrap-around of line 71, `WrapInt32`) and `Commit` are total over any index, but `Step` and `RunTrace` only cover a valid index. Not modelled: when the index is still out of range after the Space branch, the label lookup on line 72 throws and the rest of that frame's `Update`, including a V press, does not run; nor the throw of the V branch's log line after its store write.
- Durability of the preferences store: `Save()` and write failures are not modelled. The store is a map. `GetInt` and `GetFloat` return their default when a key is missing or holds the other type; this is library behaviour not visible here.
- Floating point: samples, offsets and products are reals, with no rounding, NaN or infinity.
- Mappings.Apply: it is defined only for sign vectors of 1 and -1, the only ones the generator builds. For those, multiplying a component by its sign is exactly keeping or negating it, and `Scale` states it that way.
- Quaternions.InverseCancels: the engine's `Quaternion.Inverse` is native code not visible here. It is modelled as the conjugate, so the cancellation is exact only for unit quaternions, which the lemma states.
- Euler angles and every `Debug.Log` line (lines 40-44, 65, 72, 80, 97, 104-105) are diagnostics. The warning on line 97 appears only as the `Warned` effect.
