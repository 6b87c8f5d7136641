/** Value shapes and constant tables of the board: the colour and role
    enumerations, the file and rank alphabets that name squares, the key
    sentinel, the conversion table to the external square naming, and the
    rectangle and board-dimension records. */
module Types {

  datatype Color = White | Black

  datatype Role = King | Queen | Rook | Bishop | Knight | Pawn

  /** A piece; `promoted` is the optional flag (None when the field is absent). */
  datatype Piece = Piece(role: Role, color: Color, promoted: Option<bool>)

  datatype Option<T> = None | Some(value: T)

  /** A 1-based (file, rank) grid position. */
  datatype Pos = Pos(file: int, rank: int)

  /** A pair of screen coordinates (pixels or percent). */
  datatype NumberPair = NumberPair(x: real, y: real)

  /** A bounding rectangle in pixels. */
  datatype Rect = Rect(left: real, top: real, width: real, height: real)

  /** Board size in squares. */
  datatype BoardDimensions = BoardDimensions(width: int, height: int)

  /** The 40 file symbols, 'P' .. 'w'. */
  const Files: seq<char> :=
    ['P', 'Q', 'R', 'S', 'T', 'U', 'V', 'W', 'X', 'Y', 'Z', '[', '\\', ']', '^', '_', '`',
     'a', 'b', 'c', 'd', 'e', 'f', 'g', 'h', 'i', 'j', 'k', 'l', 'm', 'n', 'o', 'p', 'q',
     'r', 's', 't', 'u', 'v', 'w']

  /** The 20 rank symbols, '\'' .. ':'. */
  const Ranks: seq<char> :=
    ['\'', '(', ')', '*', '+', ',', '-', '.', '/', '0', '1', '2', '3', '4', '5', '6', '7',
     '8', '9', ':']

  /** The "no square" key. */
  const Sentinel: string := "a0"

  /** A key is the sentinel or one file symbol followed by one rank symbol. */
  predicate IsKey(k: string) {
    k == Sentinel || (|k| == 2 && k[0] in Files && k[1] in Ranks)
  }

  /** The file symbols occupy the consecutive character codes 80 .. 119. */
  lemma FileCodes()
    ensures |Files| == 40
    ensures forall i :: 0 <= i < |Files| ==> Files[i] as int == 80 + i
  {
    assert Files == seq(40, i requires 0 <= i < 40 => (80 + i) as char);
  }

  /** The rank symbols occupy the consecutive character codes 39 .. 58. */
  lemma RankCodes()
    ensures |Ranks| == 20
    ensures forall j :: 0 <= j < |Ranks| ==> Ranks[j] as int == 39 + j
  {
    assert Ranks == seq(20, j requires 0 <= j < 20 => (39 + j) as char);
  }

  /** Both alphabets are free of repetitions, and no symbol is both a file and a rank. */
  lemma AlphabetsDistinctAndDisjoint()
    ensures forall i, i' :: 0 <= i < i' < |Files| ==> Files[i] != Files[i']
    ensures forall j, j' :: 0 <= j < j' < |Ranks| ==> Ranks[j] != Ranks[j']
    ensures forall c :: c in Files ==> c !in Ranks
  {
    FileCodes();
    RankCodes();
  }

  /** A key splits in exactly one way into a file symbol and a rank symbol,
      and the sentinel is itself such a key: the file at index 17 and the
      rank at index 9. */
  lemma KeyDecomposition(k: string)
    requires IsKey(k)
    ensures |k| == 2 && k[0] in Files && k[1] in Ranks
    ensures k[0] !in Ranks && k[1] !in Files
  {
    AlphabetsDistinctAndDisjoint();
    if k == Sentinel {
      assert k[0] == Files[17] && k[1] == Ranks[9];
    }
  }

  /** The characters the conversion table stores behind a backslash. */
  const Escaped: set<char> := {'[', '\\', ']', '^', '(', ')', '*', '+', ',', '-', '.'}

  /** The table key under which a symbol is stored. */
  function TableKey(c: char): (k: string)
    ensures |k| == (if c in Escaped then 2 else 1) && k[|k| - 1] == c
    ensures c in Escaped ==> k[0] == '\\'
  {
    if c in Escaped then ['\\', c] else [c]
  }

  /** The decimal numeral of a positive number, without leading zeros. */
  function Numeral(n: nat): (s: string)
    requires n >= 1
    ensures 1 <= |s| && s[0] != '0'
    ensures forall d :: 0 <= d < |s| ==> '0' <= s[d] <= '9'
  {
    if n < 10 then [('0' as int + n) as char]
    else Numeral(n / 10) + [('0' as int + n % 10) as char]
  }

  /** The number a string of decimal digits stands for. */
  function NumeralValue(s: string): int
  {
    if s == [] then 0 else NumeralValue(s[..|s| - 1]) * 10 + (s[|s| - 1] as int - '0' as int)
  }

  /** Reading the numeral of n as a decimal number gives n back. */
  lemma {:induction false} NumeralRoundTrip(n: nat)
    requires n >= 1
    ensures NumeralValue(Numeral(n)) == n
  {
    if n >= 10 {
      NumeralRoundTrip(n / 10);
      assert Numeral(n)[..|Numeral(n)| - 1] == Numeral(n / 10);
    }
  }

  /** The conversion table to the external square naming, as the literal's
      entries in source order: the file symbols, renamed to the numerals
      "1" .. "40", then the rank symbols, renamed to the letters "a" .. "t".
      No key repeats, so a lookup does not depend on the order. */
  const ConversionEntries: seq<(string, string)> := FileConversions + RankConversions

  /** The first group of the table: file symbols. */
  const FileConversions: seq<(string, string)> := [
    ("P", "1"), ("Q", "2"), ("R", "3"), ("S", "4"), ("T", "5"),
    ("U", "6"), ("V", "7"), ("W", "8"), ("X", "9"), ("Y", "10"),
    ("Z", "11"), ("\\[", "12"), ("\\\\", "13"), ("\\]", "14"), ("\\^", "15"),
    ("_", "16"), ("`", "17"), ("a", "18"), ("b", "19"), ("c", "20"),
    ("d", "21"), ("e", "22"), ("f", "23"), ("g", "24"), ("h", "25"),
    ("i", "26"), ("j", "27"), ("k", "28"), ("l", "29"), ("m", "30"),
    ("n", "31"), ("o", "32"), ("p", "33"), ("q", "34"), ("r", "35"),
    ("s", "36"), ("t", "37"), ("u", "38"), ("v", "39"), ("w", "40")
  ]

  /** The second group of the table: rank symbols. */
  const RankConversions: seq<(string, string)> := [
    ("'", "a"), ("\\(", "b"), ("\\)", "c"), ("\\*", "d"), ("\\+", "e"),
    ("\\,", "f"), ("\\-", "g"), ("\\.", "h"), ("/", "i"), ("0", "j"),
    ("1", "k"), ("2", "l"), ("3", "m"), ("4", "n"), ("5", "o"),
    ("6", "p"), ("7", "q"), ("8", "r"), ("9", "s"), (":", "t")
  ]

  /** Property access on the table: the value of the first entry named `k`, if any. */
  function Lookup(entries: seq<(string, string)>, k: string): (r: Option<string>)
    ensures r.Some? <==> exists i :: 0 <= i < |entries| && entries[i].0 == k
  {
    if entries == [] then None
    else if entries[0].0 == k then Some(entries[0].1)
    else Lookup(entries[1..], k)
  }

  /** A lookup finds the first entry carrying the key. */
  lemma {:induction false} LookupAt(entries: seq<(string, string)>, i: nat, k: string)
    requires i < |entries| && entries[i].0 == k
    requires forall j :: 0 <= j < i ==> entries[j].0 != k
    ensures Lookup(entries, k) == Some(entries[i].1)
  {
    if i > 0 {
      LookupAt(entries[1..], i - 1, k);
    }
  }

  /** The same numerals as `Numeral`, written out for one and two digits
      only: the table's entries are checked against this non-recursive form,
      which the verifier evaluates without unfolding a recursion. */
  function Digits(n: nat): string
    requires 1 <= n < 100
  {
    if n < 10 then [('0' as int + n) as char] else [('0' as int + n / 10) as char, ('0' as int + n % 10) as char]
  }

  /** Table keys of different symbols differ. */
  lemma TableKeyInjective(c: char, d: char)
    requires TableKey(c) == TableKey(d)
    ensures c == d
  {
  }

  /** Below 100, a numeral has one or two digits. */
  lemma NumeralDigits(n: nat)
    requires 1 <= n < 100
    ensures Numeral(n) == Digits(n)
  {
    if n >= 10 {
      assert Numeral(n / 10) == Digits(n / 10);
    }
  }

  /** The first twenty entries of the first group, by character code. */
  lemma FileConversionsLow()
    ensures forall i :: 0 <= i < 20 ==> FileConversions[i] == (TableKey((80 + i) as char), Digits(i + 1))
  {
  }

  /** The last twenty entries of the first group, by character code. */
  lemma FileConversionsHigh()
    ensures |FileConversions| == 40
    ensures forall i :: 20 <= i < 40 ==> FileConversions[i] == (TableKey((80 + i) as char), Digits(i + 1))
  {
  }

  /** The i-th entry of the first group names the i-th file symbol and the numeral of i+1. */
  lemma FileConversionsShape()
    ensures |FileConversions| == |Files|
    ensures forall i :: 0 <= i < |Files| ==> FileConversions[i] == (TableKey(Files[i]), Numeral(i + 1))
  {
    FileCodes();
    FileConversionsLow();
    FileConversionsHigh();
    forall i | 0 <= i < |Files| ensures FileConversions[i] == (TableKey(Files[i]), Numeral(i + 1)) {
      NumeralDigits(i + 1);
      assert Files[i] == (80 + i) as char;
    }
  }

  /** The j-th entry of the second group names the j-th rank symbol and the (j+1)-th lower-case letter. */
  lemma RankConversionsShape()
    ensures |RankConversions| == |Ranks|
    ensures forall j :: 0 <= j < |Ranks| ==> RankConversions[j] == (TableKey(Ranks[j]), [('a' as int + j) as char])
  {
    assert RankConversions == seq(20, j requires 0 <= j < 20 => (TableKey(Ranks[j]), [('a' as int + j) as char]));
  }

  /** Looking up the table key of the i-th file symbol gives the numeral of i+1. */
  lemma FileConversion(i: nat)
    requires i < |Files|
    ensures Lookup(ConversionEntries, TableKey(Files[i])) == Some(Numeral(i + 1))
  {
    FileConversionsShape();
    AlphabetsDistinctAndDisjoint();
    forall j | 0 <= j < i ensures ConversionEntries[j].0 != TableKey(Files[i]) {
      if ConversionEntries[j].0 == TableKey(Files[i]) {
        TableKeyInjective(Files[j], Files[i]);
      }
    }
    LookupAt(ConversionEntries, i, TableKey(Files[i]));
  }

  /** Looking up the table key of the j-th rank symbol gives the (j+1)-th lower-case letter. */
  lemma RankConversion(j: nat)
    requires j < |Ranks|
    ensures Lookup(ConversionEntries, TableKey(Ranks[j])) == Some([('a' as int + j) as char])
  {
    FileConversionsShape();
    RankConversionsShape();
    FileCodes();
    RankCodes();
    var k := TableKey(Ranks[j]);
    forall e | 0 <= e < |Files| + j ensures ConversionEntries[e].0 != k {
      if e < |Files| {
        assert ConversionEntries[e] == FileConversions[e];
        if ConversionEntries[e].0 == k {
          TableKeyInjective(Files[e], Ranks[j]);
        }
      } else {
        assert ConversionEntries[e] == RankConversions[e - |Files|];
        if ConversionEntries[e].0 == k {
          TableKeyInjective(Ranks[e - |Files|], Ranks[j]);
        }
      }
    }
    assert ConversionEntries[|Files| + j] == RankConversions[j];
    LookupAt(ConversionEntries, |Files| + j, k);
  }

  /** A character the table stores behind a backslash is not itself a key of the table. */
  lemma EscapedNotBare(c: char)
    requires c in Escaped
    ensures Lookup(ConversionEntries, [c]) == None
  {
    FileConversionsShape();
    RankConversionsShape();
    forall e | 0 <= e < |ConversionEntries| ensures ConversionEntries[e].0 != [c] {
      var s := if e < |Files| then Files[e] else Ranks[e - |Files|];
      assert ConversionEntries[e].0 == TableKey(s);
    }
  }

  /** The table key of the e-th entry: a file symbol in the first group, a
      rank symbol in the second. */
  lemma ConversionEntryKey(e: nat)
    requires e < |ConversionEntries|
    ensures |ConversionEntries| == |Files| + |Ranks|
    ensures ConversionEntries[e].0 == TableKey(if e < |Files| then Files[e] else Ranks[e - |Files|])
  {
    FileCodes();
    RankCodes();
    assert |FileConversions| == |Files| by { FileConversionsHigh(); }
    assert |RankConversions| == |Ranks|;
    if e < |Files| {
      assert ConversionEntries[e] == FileConversions[e];
      FileConversionsShape();
    } else {
      assert ConversionEntries[e] == RankConversions[e - |Files|];
      RankConversionsShape();
    }
  }

  /** No two entries of the table carry the same key, so the first entry
      carrying a key is also the only one. */
  lemma ConversionKeysDistinct(a: nat, b: nat)
    requires a < b < |ConversionEntries|
    ensures ConversionEntries[a].0 != ConversionEntries[b].0
  {
    ConversionEntryKey(a);
    ConversionEntryKey(b);
    var ca := if a < |Files| then Files[a] else Ranks[a - |Files|];
    var cb := if b < |Files| then Files[b] else Ranks[b - |Files|];
    if ConversionEntries[a].0 == ConversionEntries[b].0 {
      TableKeyInjective(ca, cb);
      FileCodes();
      RankCodes();
      assert false;
    }
  }
}
