// The byte translation table chartbl2 that PF_log applies before writing text
// to a log file: control and high-bit ("coloured") bytes become plain ASCII.
// PR_CleanLogText_Init fills the table; PR_CleanText rewrites a NUL-terminated
// buffer in place through it.
module LogText {

  newtype byte = x: int | 0 <= x < 256

  const HASH: byte := 35      // '#'
  const DOT: byte := 46       // '.'
  const LBRACKET: byte := 91  // '['
  const RBRACKET: byte := 93  // ']'
  const LPAREN: byte := 40    // '('
  const RPAREN: byte := 41    // ')'
  const EQUALS: byte := 61    // '='
  const GT: byte := 62        // '>'
  const LT: byte := 60        // '<'

  /**
   * chartbl2[b] once PR_CleanLogText_Init has run. The cases are tested in the
   * reverse of the order the initialiser writes them, so each byte gets the
   * value of the last write to its entry.
   */
  function CleanByte(b: byte): byte
  {
    var low := Low(b);
    if b == 30 || b == 129 || b == 158 then EQUALS
    else if b == 141 then LT
    else if b == 127 then GT
    else if b == 29 || b == 157 || b == 128 then LPAREN
    else if b == 31 || b == 159 || b == 130 then RPAREN
    else if b == 16 || b == 144 then LBRACKET
    else if b == 17 || b == 145 then RBRACKET
    else if 18 <= low < 28 then low + 30
    else if low == 5 || low == 14 || low == 15 || low == 28 || low == 46 then DOT
    else if b == 10 || b == 13 then b
    else if low < 32 then HASH
    else low
  }

  /** The byte with its high (colour) bit cleared. */
  function Low(b: byte): (r: byte)
    ensures r < 128 && r as int == b as int % 128
  {
    if b < 128 then b else b - 128
  }

  // The table after each group of writes of PR_CleanLogText_Init.

  function Base(b: byte): byte {
    if Low(b) < 32 then HASH else Low(b)
  }

  function AfterSpecial(b: byte): byte {
    if b == 10 || b == 13 then b else Base(b)
  }

  function AfterDots(b: byte): byte {
    var low := Low(b);
    if low == 5 || low == 14 || low == 15 || low == 28 || low == 46 then DOT else AfterSpecial(b)
  }

  function AfterNumbers(b: byte): byte {
    var low := Low(b);
    if 18 <= low < 28 then low + 30 else AfterDots(b)
  }

  function AfterBrackets(b: byte): byte {
    if b == 16 || b == 144 then LBRACKET
    else if b == 17 || b == 145 then RBRACKET
    else if b == 29 || b == 157 || b == 128 then LPAREN
    else if b == 31 || b == 159 || b == 130 then RPAREN
    else AfterNumbers(b)
  }

  function AfterArrows(b: byte): byte {
    if b == 127 then GT else if b == 141 then LT else AfterBrackets(b)
  }

  function AfterEquals(b: byte): byte {
    if b == 30 || b == 129 || b == 158 then EQUALS else AfterArrows(b)
  }

  /** The last group of writes leaves exactly CleanByte. */
  lemma StagesEndInCleanByte(b: byte)
    ensures AfterEquals(b) == CleanByte(b)
  {
  }

  predicate Holds(tbl: array<byte>, stage: byte -> byte)
    reads tbl
  {
    tbl.Length == 256 && forall b :: 0 <= b < 256 ==> tbl[b] == stage(b as byte)
  }

  /** The two fill loops: entries below 32 (in both halves) become '#', the rest their low 7 bits. */
  method FillBase(tbl: array<byte>)
    requires tbl.Length == 256
    modifies tbl
    ensures Holds(tbl, Base)
  {
    var i := 0;
    while i < 32
      invariant 0 <= i <= 32
      invariant forall b :: 0 <= b < i ==> tbl[b] == HASH
      invariant forall b :: 128 <= b < 128 + i ==> tbl[b] == HASH
    {
      tbl[i] := HASH;
      tbl[i + 128] := HASH;
      i := i + 1;
    }
    while i < 128
      invariant 32 <= i <= 128
      invariant forall b :: 0 <= b < 32 ==> tbl[b] == HASH
      invariant forall b :: 128 <= b < 160 ==> tbl[b] == HASH
      invariant forall b :: 32 <= b < i ==> tbl[b] == b as byte
      invariant forall b :: 160 <= b < 128 + i ==> tbl[b] == (b - 128) as byte
    {
      tbl[i] := i as byte;
      tbl[i + 128] := i as byte;
      i := i + 1;
    }
  }

  method FillSpecial(tbl: array<byte>)
    requires Holds(tbl, Base)
    modifies tbl
    ensures Holds(tbl, AfterSpecial)
  {
    tbl[10] := 10;
    tbl[13] := 13;
  }

  method FillDots(tbl: array<byte>)
    requires Holds(tbl, AfterSpecial)
    modifies tbl
    ensures Holds(tbl, AfterDots)
  {
    ghost var before := tbl[..];
    tbl[5] := DOT; tbl[14] := DOT; tbl[15] := DOT; tbl[28] := DOT; tbl[46] := DOT;
    tbl[5 + 128] := DOT; tbl[14 + 128] := DOT; tbl[15 + 128] := DOT; tbl[28 + 128] := DOT; tbl[46 + 128] := DOT;
    forall b | 0 <= b < 256
      ensures tbl[b] == AfterDots(b as byte)
    {
      var low := Low(b as byte);
      if !(low == 5 || low == 14 || low == 15 || low == 28 || low == 46) {
        assert tbl[b] == before[b];
      }
    }
  }

  method FillNumbers(tbl: array<byte>)
    requires Holds(tbl, AfterDots)
    modifies tbl
    ensures Holds(tbl, AfterNumbers)
  {
    var i := 18;
    while i < 28
      invariant 18 <= i <= 28
      invariant forall b :: 0 <= b < 256 && !(18 <= Low(b as byte) < i) ==> tbl[b] == AfterDots(b as byte)
      invariant forall b :: 0 <= b < 256 && 18 <= Low(b as byte) < i ==> tbl[b] == AfterNumbers(b as byte)
    {
      tbl[i] := (i + 30) as byte;
      tbl[i + 128] := (i + 30) as byte;
      i := i + 1;
    }
  }

  method FillBrackets(tbl: array<byte>)
    requires Holds(tbl, AfterNumbers)
    modifies tbl
    ensures Holds(tbl, AfterBrackets)
  {
    ghost var before := tbl[..];
    tbl[16] := LBRACKET; tbl[16 + 128] := LBRACKET;
    tbl[17] := RBRACKET; tbl[17 + 128] := RBRACKET;
    tbl[29] := LPAREN; tbl[29 + 128] := LPAREN; tbl[128] := LPAREN;
    tbl[31] := RPAREN; tbl[31 + 128] := RPAREN; tbl[130] := RPAREN;
    forall b | 0 <= b < 256
      ensures tbl[b] == AfterBrackets(b as byte)
    {
      if b !in {16, 144, 17, 145, 29, 157, 128, 31, 159, 130} {
        assert tbl[b] == before[b];
      }
    }
  }

  method FillArrowsAndEquals(tbl: array<byte>)
    requires Holds(tbl, AfterBrackets)
    modifies tbl
    ensures Holds(tbl, AfterEquals)
  {
    ghost var before := tbl[..];
    tbl[127] := GT;
    tbl[141] := LT;
    tbl[30] := EQUALS; tbl[129] := EQUALS; tbl[30 + 128] := EQUALS;
    forall b | 0 <= b < 256
      ensures tbl[b] == AfterEquals(b as byte)
    {
      if b !in {127, 141, 30, 129, 158} {
        assert tbl[b] == before[b];
      }
    }
  }

  /** PR_CleanLogText_Init: the writes to chartbl2, in the initialiser's order. */
  method InitCleanTable(tbl: array<byte>)
    requires tbl.Length == 256
    modifies tbl
    ensures forall b :: 0 <= b < 256 ==> tbl[b] == CleanByte(b as byte)
  {
    FillBase(tbl);
    FillSpecial(tbl);
    FillDots(tbl);
    FillNumbers(tbl);
    FillBrackets(tbl);
    FillArrowsAndEquals(tbl);
    forall b | 0 <= b < 256
      ensures tbl[b] == CleanByte(b as byte)
    {
      StagesEndInCleanByte(b as byte);
    }
  }

  /** Every cleaned byte is 7-bit and printable, a newline or a carriage return; never NUL. */
  lemma CleanByteIsPlain(b: byte)
    ensures CleanByte(b) != 0 && CleanByte(b) < 128
    ensures CleanByte(b) == 10 || CleanByte(b) == 13 || 32 <= CleanByte(b)
  {
  }

  /** Printable ASCII, newline and carriage return pass through unchanged. */
  lemma CleanKeepsPlain(b: byte)
    requires b == 10 || b == 13 || 32 <= b < 127
    ensures CleanByte(b) == b
  {
  }

  /** Only byte 255 comes out as DEL (127), which a second cleaning turns into '>'. */
  lemma CleanDelOnlyFrom255(b: byte)
    ensures CleanByte(b) == 127 <==> b == 255
    ensures CleanByte(CleanByte(255)) == GT != CleanByte(255)
  {
  }

  /** Cleaning is idempotent on every byte except 255. */
  lemma CleanIdempotent(b: byte)
    requires b != 255
    ensures CleanByte(CleanByte(b)) == CleanByte(b)
  {
    CleanByteIsPlain(b);
    CleanDelOnlyFrom255(b);
    CleanKeepsPlain(CleanByte(b));
  }

  /** The index of the first NUL of s, or |s|. */
  function FirstNul(s: seq<byte>): (n: nat)
    ensures n <= |s| && (n < |s| ==> s[n] == 0)
    ensures forall j :: 0 <= j < n ==> s[j] != 0
  {
    if s == [] || s[0] == 0 then 0 else 1 + FirstNul(s[1..])
  }

  /** A buffer after PR_CleanText with table t: each byte before the first NUL replaced by its entry. */
  function CleanedBy(t: seq<byte>, s: seq<byte>): (r: seq<byte>)
    requires |t| == 256
    ensures |r| == |s|
  {
    seq(|s|, j requires 0 <= j < |s| => if j < FirstNul(s) then t[s[j]] else s[j])
  }

  /** PR_CleanText: translate the text in place up to its terminating NUL. */
  method CleanText(tbl: array<byte>, text: array<byte>)
    requires tbl.Length == 256 && tbl != text
    requires exists k :: 0 <= k < text.Length && text[k] == 0
    modifies text
    ensures text[..] == CleanedBy(tbl[..], old(text[..]))
  {
    ghost var s := text[..];
    ghost var n := FirstNul(s);
    var i := 0;
    while text[i] != 0
      invariant 0 <= i <= n < text.Length
      invariant forall j :: 0 <= j < i ==> text[j] == tbl[s[j]]
      invariant forall j :: i <= j < text.Length ==> text[j] == s[j]
      decreases n - i
    {
      text[i] := tbl[text[i]];
      i := i + 1;
    }
    assert text[..] == CleanedBy(tbl[..], s);
  }

  /** chartbl2 once PR_CleanLogText_Init has run, as a sequence. */
  function CleanTable(): (t: seq<byte>)
    ensures |t| == 256 && forall b :: 0 <= b < 256 ==> t[b] == CleanByte(b as byte)
  {
    seq(256, b requires 0 <= b < 256 => CleanByte(b as byte))
  }

  /**
   * With the initialised table, cleaning keeps the terminating NUL where it was
   * and makes every byte before it plain.
   */
  lemma CleanedShape(s: seq<byte>)
    ensures var r := CleanedBy(CleanTable(), s);
            && FirstNul(r) == FirstNul(s)
            && (forall j :: 0 <= j < FirstNul(r) ==> r[j] == 10 || r[j] == 13 || 32 <= r[j] < 128)
  {
    var r := CleanedBy(CleanTable(), s);
    var n := FirstNul(s);
    forall j | 0 <= j < n
      ensures r[j] == CleanByte(s[j]) && r[j] != 0
    {
      CleanByteIsPlain(s[j]);
    }
    FirstNulUnique(r, n);
  }

  /** Cleaning a cleaned text again changes nothing unless the text held byte 255. */
  lemma CleanedStable(s: seq<byte>)
    requires 255 !in s[..FirstNul(s)]
    ensures var r := CleanedBy(CleanTable(), s);
            CleanedBy(CleanTable(), r) == r
  {
    var t := CleanTable();
    var r := CleanedBy(t, s);
    var n := FirstNul(s);
    CleanedShape(s);
    forall j | 0 <= j < n
      ensures t[r[j]] == r[j]
    {
      assert s[..n][j] == s[j];
      CleanIdempotent(s[j]);
    }
  }

  /** The first NUL is the index before which no byte is NUL and at which one is (or the end). */
  lemma {:induction false} FirstNulUnique(s: seq<byte>, n: nat)
    requires n <= |s| && (n < |s| ==> s[n] == 0)
    requires forall j :: 0 <= j < n ==> s[j] != 0
    ensures FirstNul(s) == n
  {
    if n > 0 {
      FirstNulUnique(s[1..], n - 1);
    }
  }
}
