# Board addressing of a chessground fork, in Dafny

This project models the board-addressing layer of a fork of chessground, a
chess-board user-interface library, and proves properties of that model.
The fork widens the board to up to 40 files and 20 ranks. Squares are named
by keys: a file symbol followed by a rank symbol, taken from two alphabets
of consecutive character codes. The file symbols are `'P'` .. `'w'` (codes
80 .. 119) and the rank symbols are `'\''` .. `':'` (codes 39 .. 58). The
key `"a0"` serves as the "no square" sentinel. It is itself a file symbol
followed by a rank symbol: it is the key of file 18, rank 10.

The model covers:

- **Alphabets and key codec** (`Types`, `Codec`):
  - the two alphabets and the key shape;
  - `pos2key` and `key2pos`;
  - the file-major list of a board's keys (`allKeys`), and its decoding for
    the 20 x 10 board (`allPos`);
  - the reversed rank tables;
  - the conversion table to the external square naming, in which files
    become `"1"` .. `"40"` and ranks become `"a"` .. `"t"`.
- **Screen transforms** (`Transform`):
  - the offset of a square, in pixels or in percent of the board, for either
    orientation;
  - the pixel centre of a key's square, exactly over `real`.
- **Small helpers** (`Helpers`): `opposite`, `distanceSq` and `samePiece`.
- **Stateful helpers** (`Cells`):
  - the memo is a class holding the one cached value, and the producer runs
    only while nothing is cached;
  - the timer is a class holding the one recorded start time, and the caller
    passes in the current time.

Two facts about the code shape several of the properties below:

- `key2pos` is not the inverse of `pos2key`. `pos2key` indexes the
  alphabets, while `key2pos` subtracts the codes of `` '`' `` and `'0'`. So
  decoding the key of (f, r) gives (f - 17, r - 10)
  (`Codec.Key2PosOfPos2Key`).
- The centre of `"a1"` on an 800 x 800 board seen from white is (150, 650).
  `"a1"` decodes to (1, 1), and the centre formula counts cells from 0
  (`Transform.SquareCenterOfA1`).

## Model

| member | source | states |
|---|---|---|
| Types.FileCodes | src/types.ts:100 | there are 40 file symbols, and the i-th has character code 80 + i |
| Types.RankCodes | src/types.ts:101 | there are 20 rank symbols, and the j-th has character code 39 + j |
| Types.AlphabetsDistinctAndDisjoint | src/types.ts:100-101 | neither alphabet repeats a symbol, and no symbol is in both |
| Types.IsKey | src/types.ts:5 | a key is the sentinel `"a0"` or a file symbol followed by a rank symbol; the properties are stated by `Types.KeyDecomposition` and the `Codec` lemmas |
| Types.KeyDecomposition | src/types.ts:5 | every key, the sentinel `"a0"` included, is exactly one file symbol followed by one rank symbol, and its two characters cannot swap roles |
| Types.TableKey | src/types.ts:117-120 | a character of `Escaped` (the escaped keys here and at src/types.ts:149-155) is stored under a two-character key, a backslash then the symbol; any other symbol is stored under itself |
| Types.Numeral | src/types.ts:106-145 | the value is a decimal numeral: non-empty, digits only, and no leading zero |
| Types.NumeralRoundTrip | src/types.ts:106-145 | read as a decimal number, the numeral of n is n |
| Types.Lookup | src/types.ts:104-168 | property access on the table finds a value exactly when some entry carries the key |
| Types.LookupAt | src/types.ts:104-168 | a lookup returns the value of the first entry that carries the key |
| Types.FileConversion | src/types.ts:106-145 | the i-th file symbol, under its table key, maps to the numeral of i + 1 (`"1"` .. `"40"`) |
| Types.RankConversion | src/types.ts:148-167 | the j-th rank symbol, under its table key, maps to the (j+1)-th lower-case letter (`"a"` .. `"t"`) |
| Types.ConversionEntryKey | src/types.ts:104-168 | the e-th entry of the table carries the table key of the e-th file symbol, or of the (e - 40)-th rank symbol |
| Types.ConversionKeysDistinct | src/types.ts:104-168 | no two entries of the table carry the same key, so the first entry carrying a key is the only one |
| Types.EscapedNotBare | src/types.ts:117-120 | a character of `Escaped`, stored behind a backslash, is not itself a key of the table |
| Codec.SliceEnd | src/util.ts:8-14 | the end that `slice(0, n)` uses never lies past the end of the list |
| Codec.SliceEndIdempotent | src/util.ts:8-14 | slicing again at the end of a slice keeps that end, so a slice of a slice is the same slice |
| Codec.FilesPrefix | src/util.ts:8-10 | `files(n)` is the first `SliceEnd(40, n)` file symbols, in order |
| Codec.RanksPrefix | src/util.ts:12-14 | `ranks(n)` is the first `SliceEnd(20, n)` rank symbols, in order |
| Codec.Pos2Key | src/util.ts:21-23 | on a position inside the alphabets, the key is two characters, with codes 79 + file and 38 + rank |
| Codec.Pos2KeyIsKey | src/util.ts:21-23 | the key of a position is a key |
| Codec.Key2Pos | src/util.ts:25 | on a key, the decoded file is the file symbol's alphabet index minus 16 (so -16 .. 23), and the decoded rank is the rank symbol's index minus 9 (so -9 .. 10) |
| Codec.KeyCodes | src/types.ts:5 | the two characters of a key have codes in 80 .. 119 and 39 .. 58, and are the alphabet symbols at those codes |
| Codec.Key2PosOfPos2Key | src/util.ts:21-25 | decoding the key of (f, r) gives (f - 17, r - 10), not (f, r) |
| Codec.Pos2KeyInjective | src/util.ts:21-23 | distinct positions have distinct keys |
| Codec.KeyOfDecodedPos | src/util.ts:21-25 | every key is the key of its decoded position shifted back by (17, 10), and that position is inside the alphabets |
| Codec.SentinelIsASquare | src/types.ts:5 | the sentinel `"a0"` is the key of (18, 10) and decodes to (1, 0) |
| Codec.AllKeys | src/util.ts:16-19 | the keys of a board, file by file and then rank by rank; the properties are stated by the `AllKeys*` lemmas |
| Codec.KeyRows | src/util.ts:18 | one row per kept file, each with one key per kept rank |
| Codec.AllKeysLength | src/util.ts:16-19 | a board of w <= 40 files and h <= 20 ranks has exactly w * h keys |
| Codec.AllKeysAt | src/util.ts:16-19 | entry i * h + j is the key of file i + 1 and rank j + 1 (file-major order) |
| Codec.AllKeysOnBoard | src/util.ts:16-19 | every listed key is the key of an on-board position, and its index is that position's file-major index |
| Codec.AllKeysDistinct | src/util.ts:16-19 | the listed keys are pairwise distinct |
| Codec.SentinelOnBoard | src/util.ts:16-19 | the sentinel is among the keys of every board of at least 18 files and 10 ranks |
| Codec.AllKeysClamped | src/util.ts:16-19 | dimensions beyond the alphabets, or negative ones, list the keys of the board that `slice` clamps them to |
| Codec.AllKeysPairs | src/util.ts:16-19 | every listed key of a board has two characters, so it can be decoded |
| Codec.DecodeAll | src/util.ts:27 | decoding a list of two-character keys keeps its length and decodes each entry |
| Codec.AllPosAt | src/util.ts:27 | there are 200 decoded positions of the 20 x 10 board, and entry i * 10 + j is (i - 16, j - 9) |
| Codec.InvRanksAt | src/util.ts:3 | `invRanks` is the rank alphabet reversed |
| Codec.InvNRanksReversed | src/util.ts:5-6 | `invNRanks` is `NRanks` reversed |
| Transform.PosToTranslateBase | src/util.ts:67-71 | the offset of a square for either orientation; the properties are stated by the two lemmas that follow |
| Transform.TranslateOrientationSymmetry | src/util.ts:67-71 | the offset of (f, r) seen from white equals the offset of (w + 1 - f, h + 1 - r) seen from black |
| Transform.TranslateWithinBoard | src/util.ts:67-71 | for 1 <= f <= w and 1 <= r <= h, the offset lies in [0, (w-1) xFactor] x [0, (h-1) yFactor] |
| Transform.PosToTranslateRel | src/util.ts:79-80 | the percent offset of an on-board position lies in [0, 100) on both axes |
| Transform.PosToTranslateAbs | src/util.ts:73-77 | for every position and orientation, the pixel offset equals the percent offset scaled by width / 100 and by height / 100 |
| Transform.CellCenter | src/util.ts:115-116 | the per-axis centre formula: n eighths of the size past the origin, plus one sixteenth |
| Transform.CellCenterSixteenths | src/util.ts:115-116 | n eighths plus one sixteenth of the size is 2n + 1 sixteenths of it |
| Transform.CellCenterWithin | src/util.ts:115-116 | the centre of cell 0 .. 7 lies on the axis |
| Transform.CellCenterMirror | src/util.ts:115-116 | the centres of cells n and 7 - n are symmetric about the middle of the axis |
| Transform.SquareCenter | src/util.ts:108-118 | the centre of a key's square on an 8 x 8 grid, counting columns and rows from the side the viewer sits on |
| Transform.ComputeSquareCenter | src/util.ts:108-118 | flipping the decoded position in place and scaling gives the centre of the key's cell on an 8 x 8 grid; the board's dimensions play no part |
| Transform.SquareCenterMirror | src/util.ts:108-118 | x seen from white plus x seen from black is 2 left + width, and likewise for y with top and height |
| Transform.SquareCenterInside | src/util.ts:108-118 | a key that decodes to file and rank in 0 .. 7 has its centre inside the rectangle |
| Transform.SquareCenterOfA1 | src/util.ts:108-118 | `"a1"` decodes to (1, 1), and its centre on 800 x 800 seen from white is (150, 650) |
| Helpers.Opposite | src/util.ts:59 | the opposite colour is never the colour itself |
| Helpers.OppositeInvolution | src/util.ts:59 | taking the opposite twice gives the colour back |
| Helpers.DistanceSq | src/util.ts:61-63 | the squared distance is non-negative, and zero exactly when the positions are equal |
| Helpers.DistanceSqSymmetric | src/util.ts:61-63 | the squared distance does not depend on the order of its arguments |
| Helpers.SamePiece | src/util.ts:65 | two pieces are the same exactly when they are equal once the promotion flag is ignored |
| Helpers.SamePieceEquivalence | src/util.ts:65 | being the same piece is reflexive, symmetric and transitive |
| Cells.Memo.constructor | src/util.ts:29-30 | a new memo holds nothing, and the producer has not run |
| Cells.Memo.Call | src/util.ts:31-34 | with a value cached, the call returns it, whatever the producer would now yield, and the producer does not run; otherwise the producer runs once and its current result is cached and returned |
| Cells.Memo.Clear | src/util.ts:35-37 | clearing empties the cache |
| Cells.MemoRunsOnce | src/util.ts:29-39 | the second call returns the first call's value even when the producer would now yield another, and the producer runs once |
| Cells.MemoClearRecomputes | src/util.ts:29-39 | a call after `clear` runs the producer again and returns its new value |
| Cells.MemoUndefinedRecomputes | src/util.ts:32 | after the producer yields `undefined`, the next call runs it again and returns its new value |
| Cells.Timer.constructor | src/util.ts:41-42 | a new timer has no recorded start |
| Cells.Timer.Start | src/util.ts:44-46 | start records the current time |
| Cells.Timer.Cancel | src/util.ts:47-49 | cancel discards the recorded time |
| Cells.Timer.Stop | src/util.ts:50-55 | with no start recorded, or a start at time 0, stop returns 0 and changes nothing; otherwise it returns the elapsed time and discards the start |
| Cells.TimerMeasures | src/util.ts:41-57 | started at t0 != 0 and stopped at t1, a timer measures t1 - t0, and a second stop measures 0 |
| Cells.TimerUnstarted | src/util.ts:41-57 | a timer never started, or cancelled after its start, measures 0 |
| Cells.TimerStartedAtZero | src/util.ts:51 | a timer started at time 0 measures 0, however late it is stopped |

## Left out

- Browser-facing helpers are not modelled: `translateAbs`, `translateRel`,
  `setVisible` and `createEl` (src/util.ts:82-106) only write element styles
  or create elements.
- `eventPosition` and `isRightButton` (src/util.ts:94-100) are not modelled;
  they only read fields of browser input events.
- The browser clock `performance.now()` is not modelled: `Start` and `Stop`
  take the current time as an argument.
- IEEE-754 floating point is not modelled. Offsets and centres are exact
  `real`s, and `Math.pow(d, 2)` is the integer `d * d`. There is no rounding,
  NaN or Infinity.
- PosToTranslateRel: requires a board of at least one file and one rank, because
  in JavaScript a zero dimension divides by zero (Infinity or NaN). The same
  holds for PosToTranslateAbs.
- The geometry enumeration and its dimension table, used by `allKeys` and
  `allPos`, are not part of this model. `AllKeys` takes the board dimensions
  directly, and `AllPos` uses 20 x 10.
- Pos2Key: requires a position inside the alphabets. Outside them JavaScript
  indexes past the arrays and builds a string containing "undefined", or NaN
  when both indices are out of range; that case is not modelled.
- Key2Pos: requires at least two characters. A shorter string decodes to NaN
  in JavaScript; that case is not modelled.
- The conversion object is modelled as the literal's entries in source
  order, with `Lookup` standing for property access. This is not the
  object's own property order: JavaScript lists integer-like keys first, in
  ascending order, and here those are the rank symbols `"0"` .. `"9"`. No
  modelled operation depends on the order. `Lookup` takes the first entry
  with a key, whereas a JavaScript object literal keeps the last one; because
  no key repeats (`Types.ConversionKeysDistinct`), every order gives the same
  lookup.
  Properties inherited from the object prototype, such as `toString`, are
  not modelled. The `useChessgroundToPkConversion`
  flag is a bare constant and is not modelled.
- Timer: a NaN start time is not modelled.
- The DOM, element and event interfaces of the type declarations carry no
  behaviour and are not modelled.
- Memo: the producer is not called by the model. Each use is given the value the
  producer would yield at that moment, as the timer is given the time. A
  producer's side effects are not modelled. The "nothing cached" state is
  `None`, standing for `undefined`. The ghost counter `runs` counts
  producer invocations and has no counterpart in the code.
