// The short-lived strings of the builtins: PF_VarString's concatenation, the
// eight-buffer scratch ring behind pr_string_temp, and the string arithmetic of
// argv and substr whose results land in that ring.
module TempStrings {
  import opened Common

  /** Capacity of each scratch buffer (MAX_PR_STRING_SIZE). */
  const MAX_PR_STRING_SIZE: nat := 2048
  /** Number of scratch buffers in pr_string_buf. */
  const TEMP_BUFFERS: nat := 8
  /** Capacity of PF_VarString's static output buffer. */
  const VARSTRING_SIZE: nat := 2048

  /** The strings of a list, concatenated in order. */
  function Join(parts: seq<string>): string
  {
    if parts == [] then "" else Join(parts[..|parts| - 1]) + parts[|parts| - 1]
  }

  /** What PF_VarString(first) returns: arguments first..argc-1 concatenated, cut to 2047 bytes. */
  function VarStringValue(args: seq<string>, first: nat): (r: string)
    ensures |r| < VARSTRING_SIZE
    ensures first >= |args| ==> r == ""
    ensures first < |args| ==> |r| <= |Join(args[first..])| && r == Join(args[first..])[..|r|]
    ensures first < |args| && |Join(args[first..])| < VARSTRING_SIZE ==> r == Join(args[first..])
  {
    if first >= |args| then "" else Truncate(Join(args[first..]), VARSTRING_SIZE - 1)
  }

  /** PF_VarString: strlcat of each argument from first on into a cleared 2048-byte buffer. */
  method VarString(args: seq<string>, first: nat) returns (out: string)
    ensures out == VarStringValue(args, first)
  {
    out := "";
    var i := first;
    while i < |args|
      invariant first < |args| ==> first <= i <= |args|
      invariant out == if first < |args| then Truncate(Join(args[first..i]), VARSTRING_SIZE - 1) else ""
    {
      assert args[first..i + 1][..i - first] == args[first..i];
      TruncateAppend(Join(args[first..i]), args[i], VARSTRING_SIZE - 1);
      out := StrlCat(out, args[i], VARSTRING_SIZE);
      i := i + 1;
    }
    if first < |args| {
      assert args[first..i] == args[first..];
    }
  }

  /** The buffer PF_SetTempString selects when pr_string_index is `index` (index & 7). */
  function TempSlot(index: nat): (b: nat)
    ensures b < TEMP_BUFFERS
  {
    index % TEMP_BUFFERS
  }

  /** Every eighth selection revisits the same buffer. */
  lemma TempRingRevisits(index: nat)
    ensures TempSlot(index + TEMP_BUFFERS) == TempSlot(index)
  {
  }

  /** Eight consecutive selections pick eight different buffers. */
  lemma TempRingDistinct(index: nat, j: nat, k: nat)
    requires j < k < TEMP_BUFFERS
    ensures TempSlot(index + j) != TempSlot(index + k)
  {
    var q := index / TEMP_BUFFERS;
    var r := index % TEMP_BUFFERS;
    assert index + j == q * TEMP_BUFFERS + (r + j);
    assert index + k == q * TEMP_BUFFERS + (r + k);
    if r + k < TEMP_BUFFERS {
      assert TempSlot(index + k) == r + k;
    } else if r + j < TEMP_BUFFERS {
      assert TempSlot(index + k) == r + k - TEMP_BUFFERS;
    } else {
      assert TempSlot(index + k) == r + k - TEMP_BUFFERS;
      assert TempSlot(index + j) == r + j - TEMP_BUFFERS;
    }
  }

  /**
   * The buffer the n-th scratch result (counting from 0, from server start) is
   * written into: results go into pr_string_temp, which starts at buffer 0, and
   * each PF_SetTempString after a write selects buffer (pr_string_index++ & 7).
   */
  function WriteSlot(n: nat): (b: nat)
    ensures b < TEMP_BUFFERS
  {
    if n == 0 then 0 else TempSlot(n - 1)
  }

  /** The first two scratch results both land in buffer 0. */
  lemma FirstTwoResultsShareBuffer()
    ensures WriteSlot(0) == WriteSlot(1) == 0
  {
  }

  /** From the second result on, a result survives the next seven scratch results. */
  lemma {:induction false} ResultSurvivesSeven(n: nat, k: nat)
    requires 1 <= n && n < k < n + TEMP_BUFFERS
    ensures WriteSlot(n) != WriteSlot(k)
  {
    TempRingDistinct(n - 1, 0, k - n);
  }

  /** Cmd_Argv(n): the n-th token, or "" for an index outside 0..argc-1. */
  function CmdArgv(args: seq<string>, n: int): string
  {
    if 0 <= n < |args| then args[n] else ""
  }

  /** PF_argv's clamp of the requested index into 0..argc-1. */
  function ArgvIndex(num: int, argc: nat): (n: int)
    ensures argc > 0 ==> 0 <= n < argc
    ensures argc > 0 && 0 <= num < argc ==> n == num
    ensures argc > 0 && num < 0 ==> n == 0
    ensures argc > 0 && num >= argc ==> n == argc - 1
    ensures argc == 0 ==> n == -1
  {
    var n := if num < 0 then 0 else num;
    if n > argc - 1 then argc - 1 else n
  }

  /** The text PF_argv writes into the scratch buffer (snprintf into 2048 bytes). */
  function ArgvValue(args: seq<string>, num: int): (r: string)
    ensures |r| < MAX_PR_STRING_SIZE
  {
    Truncate(CmdArgv(args, ArgvIndex(num, |args|)), MAX_PR_STRING_SIZE - 1)
  }

  /** argv returns a (possibly cut) token: the nearest in range, and "" only when there are none. */
  lemma ArgvClamps(args: seq<string>, num: int)
    ensures |args| == 0 ==> ArgvValue(args, num) == ""
    ensures |args| > 0 && num < 0 ==> ArgvValue(args, num) == Truncate(args[0], MAX_PR_STRING_SIZE - 1)
    ensures |args| > 0 && num >= |args| ==> ArgvValue(args, num) == Truncate(args[|args| - 1], MAX_PR_STRING_SIZE - 1)
    ensures 0 <= num < |args| ==> ArgvValue(args, num) == Truncate(args[num], MAX_PR_STRING_SIZE - 1)
  {
  }

  /** PF_substr's early exit: start past the end, zero length or empty string give "". */
  predicate SubstrEmpty(s: string, start: int, len: int) {
    start >= |s| || len == 0 || |s| == 0
  }

  /** What strlcpy(pr_string_temp, s + start, len + 1) does once len is clamped. */
  datatype Copy = Untouched | CopyN(n: nat)

  /**
   * rest = strlen(s) - start. len is first lowered to rest + 1; then size len + 1
   * of 0 copies nothing, a negative size wraps to a huge size_t and copies all of
   * rest, and otherwise min(len, rest) bytes are copied.
   */
  function SubstrCopy(rest: nat, len: int): (c: Copy)
    ensures c.CopyN? ==> c.n <= rest
  {
    var l := if len > rest + 1 then rest + 1 else len;
    if l == -1 then Untouched
    else if l < -1 then CopyN(rest)
    else CopyN(if l < rest then l else rest)
  }

  /** The calls whose behaviour C defines: start inside s, and no copy past the 2048-byte buffer. */
  predicate SubstrDefined(s: string, start: int, len: int) {
    SubstrEmpty(s, start, len) ||
    (0 <= start &&
     match SubstrCopy(|s| - start, len)
     case Untouched => true
     case CopyN(n) => n < MAX_PR_STRING_SIZE)
  }

  /** The string substr(s, start, len) returns; `stale` is what pr_string_temp held before. */
  function SubstrValue(s: string, start: int, len: int, stale: string): (r: string)
    requires SubstrDefined(s, start, len)
  {
    if SubstrEmpty(s, start, len) then ""
    else match SubstrCopy(|s| - start, len)
      case Untouched => stale
      case CopyN(n) => s[start..start + n]
  }

  /** Inside the string with a positive length: the slice, cut at the end of s. */
  lemma SubstrInRange(s: string, start: int, len: int, stale: string)
    requires 0 <= start < |s| && len > 0
    requires len < MAX_PR_STRING_SIZE || |s| - start < MAX_PR_STRING_SIZE
    ensures SubstrDefined(s, start, len)
    ensures var n := if len < |s| - start then len else |s| - start;
            SubstrValue(s, start, len, stale) == s[start..start + n]
  {
  }

  /** Past the end, zero length, or empty string: always "". */
  lemma SubstrEmptyCases(s: string, start: int, len: int, stale: string)
    requires start >= |s| || len == 0 || s == ""
    ensures SubstrDefined(s, start, len) && SubstrValue(s, start, len, stale) == ""
  {
  }

  /** Length -1 copies nothing: the caller gets whatever the scratch buffer already held. */
  lemma SubstrMinusOneIsStale(s: string, start: int, stale: string)
    requires 0 <= start < |s|
    ensures SubstrDefined(s, start, -1) && SubstrValue(s, start, -1, stale) == stale
  {
  }

  /** A length below -1 copies the whole tail from start. */
  lemma SubstrVeryNegativeIsTail(s: string, start: int, len: int, stale: string)
    requires 0 <= start < |s| && len < -1 && |s| - start < MAX_PR_STRING_SIZE
    ensures SubstrDefined(s, start, len) && SubstrValue(s, start, len, stale) == s[start..]
  {
  }

  /** The text PF_strcat writes into the scratch buffer: all arguments, joined and cut. */
  function StrcatValue(args: seq<string>): (r: string)
    ensures |r| < MAX_PR_STRING_SIZE
    ensures |r| <= |Join(args)| && r == Join(args)[..|r|]
    ensures |Join(args)| < MAX_PR_STRING_SIZE ==> r == Join(args)
  {
    assert args[0..] == args;
    VarStringValue(args, 0)
  }
}
