/** The generated tables of lib/messageProcessing.c, row by row as printed there. */
module Tables {

  /** Entry `i` of a table printed eight to a row. */
  function Cell(rows: seq<seq<int>>, i: nat): int {
    if i / 8 < |rows| && i % 8 < |rows[i / 8]| then rows[i / 8][i % 8] else 0
  }

  const ACTIONS_ROWS: seq<seq<int>> := [
    [0, 1, 0, 1, 2, 1, 3, 1],
    [4, 1, 5, 1, 7, 1, 12, 2],
    [1, 10, 2, 1, 11, 2, 3, 8],
    [2, 3, 9, 2, 6, 0, 2, 6],
    [2, 2, 6, 4]
  ]
  const ACTIONS: seq<int> := seq(36, i requires 0 <= i => Cell(ACTIONS_ROWS, i))

  const KEY_OFFSETS_ROWS: seq<seq<int>> := [
    [0, 0, 5, 7, 8, 9, 10, 11],
    [12, 14, 17, 19, 22, 24, 27, 28],
    [29, 30, 31, 32, 33, 34, 35, 36],
    [37, 39, 42, 43, 44, 45, 46, 47],
    [48, 49, 50, 52, 55, 56, 57, 58],
    [59, 60, 61, 63, 66, 68, 71, 73],
    [76]
  ]
  const KEY_OFFSETS: seq<int> := seq(49, i requires 0 <= i => Cell(KEY_OFFSETS_ROWS, i))

  const TRANS_KEYS_ROWS: seq<seq<int>> := [
    [67, 68, 76, 82, 85, 82, 100, 69],
    [65, 84, 69, 32, 33, 126, 32, 33],
    [126, 48, 57, 10, 48, 57, 32, 126],
    [10, 32, 126, 105, 115, 116, 10, 69],
    [76, 69, 84, 69, 32, 33, 126, 10],
    [33, 126, 73, 83, 84, 10, 69, 65],
    [68, 32, 33, 126, 10, 33, 126, 80],
    [68, 65, 84, 69, 32, 33, 126, 32],
    [33, 126, 48, 57, 10, 48, 57, 32],
    [126, 10, 32, 126, 0]
  ]
  const TRANS_KEYS: seq<int> := seq(77, i requires 0 <= i => Cell(TRANS_KEYS_ROWS, i))

  const SINGLE_LENGTHS_ROWS: seq<seq<int>> := [
    [0, 5, 2, 1, 1, 1, 1, 1],
    [0, 1, 0, 1, 0, 1, 1, 1],
    [1, 1, 1, 1, 1, 1, 1, 1],
    [0, 1, 1, 1, 1, 1, 1, 1],
    [1, 1, 0, 1, 1, 1, 1, 1],
    [1, 1, 0, 1, 0, 1, 0, 1],
    [0]
  ]
  const SINGLE_LENGTHS: seq<int> := seq(49, i requires 0 <= i => Cell(SINGLE_LENGTHS_ROWS, i))

  const RANGE_LENGTHS_ROWS: seq<seq<int>> := [
    [0, 0, 0, 0, 0, 0, 0, 0],
    [1, 1, 1, 1, 1, 1, 0, 0],
    [0, 0, 0, 0, 0, 0, 0, 0],
    [1, 1, 0, 0, 0, 0, 0, 0],
    [0, 0, 1, 1, 0, 0, 0, 0],
    [0, 0, 1, 1, 1, 1, 1, 1],
    [0]
  ]
  const RANGE_LENGTHS: seq<int> := seq(49, i requires 0 <= i => Cell(RANGE_LENGTHS_ROWS, i))

  const INDEX_OFFSETS_ROWS: seq<seq<int>> := [
    [0, 0, 6, 9, 11, 13, 15, 17],
    [19, 21, 24, 26, 29, 31, 34, 36],
    [38, 40, 42, 44, 46, 48, 50, 52],
    [54, 56, 59, 61, 63, 65, 67, 69],
    [71, 73, 75, 77, 80, 82, 84, 86],
    [88, 90, 92, 94, 97, 99, 102, 104],
    [107]
  ]
  const INDEX_OFFSETS: seq<int> := seq(49, i requires 0 <= i => Cell(INDEX_OFFSETS_ROWS, i))

  const TRANS_TARGS_ROWS: seq<seq<int>> := [
    [2, 18, 26, 30, 36, 0, 3, 14],
    [0, 4, 0, 5, 0, 6, 0, 7],
    [0, 8, 0, 9, 0, 10, 9, 0],
    [11, 0, 12, 11, 0, 13, 0, 48],
    [13, 0, 15, 0, 16, 0, 17, 0],
    [48, 0, 19, 0, 20, 0, 21, 0],
    [22, 0, 23, 0, 24, 0, 25, 0],
    [48, 25, 0, 27, 0, 28, 0, 29],
    [0, 48, 0, 31, 0, 32, 0, 33],
    [0, 34, 0, 35, 0, 48, 35, 0],
    [37, 0, 38, 0, 39, 0, 40, 0],
    [41, 0, 42, 0, 43, 0, 44, 43],
    [0, 45, 0, 46, 45, 0, 47, 0],
    [48, 47, 0, 0, 0]
  ]
  const TRANS_TARGS: seq<int> := seq(109, i requires 0 <= i => Cell(TRANS_TARGS_ROWS, i))

  const TRANS_ACTIONS_ROWS: seq<seq<int>> := [
    [0, 0, 0, 0, 0, 0, 0, 0],
    [0, 0, 0, 0, 0, 0, 0, 0],
    [0, 0, 0, 30, 0, 5, 3, 0],
    [33, 0, 9, 7, 0, 27, 0, 18],
    [1, 0, 0, 0, 0, 0, 0, 0],
    [13, 0, 0, 0, 0, 0, 0, 0],
    [0, 0, 0, 0, 0, 0, 30, 0],
    [24, 3, 0, 0, 0, 0, 0, 0],
    [0, 11, 0, 0, 0, 0, 0, 0],
    [0, 0, 0, 30, 0, 21, 3, 0],
    [0, 0, 0, 0, 0, 0, 0, 0],
    [0, 0, 0, 0, 30, 0, 5, 3],
    [0, 33, 0, 9, 7, 0, 27, 0],
    [15, 1, 0, 0, 0]
  ]
  const TRANS_ACTIONS: seq<int> := seq(109, i requires 0 <= i => Cell(TRANS_ACTIONS_ROWS, i))

  const STATES: nat := 49
  const START: nat := 1
  const FIRST_FINAL: nat := 48
  const ERROR: nat := 0

  /** Everything the interpreter loop looks at. */
  datatype Packed = Packed(
    actions: seq<int>,
    keyOffsets: seq<int>,
    transKeys: seq<int>,
    singleLengths: seq<int>,
    rangeLengths: seq<int>,
    indexOffsets: seq<int>,
    transTargs: seq<int>,
    transActions: seq<int>)

  const PROTOCOLL: Packed :=
    Packed(ACTIONS, KEY_OFFSETS, TRANS_KEYS, SINGLE_LENGTHS, RANGE_LENGTHS, INDEX_OFFSETS, TRANS_TARGS, TRANS_ACTIONS)
}
