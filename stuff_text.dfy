// The per-client stufftext accumulator of PF_stuffcmd: text is appended to the
// client's buffer, the buffer is scanned backwards for a newline, an exact
// "disconnect\n" buffer marks the client for dropping, and any other buffer with
// a newline is sent whole. Only buf[0] is cleared after a send while the scan
// goes on, so each further newline above index 0 sends one more empty message.
module StuffText {
  import opened Common

  /** The one line intercepted instead of being sent. */
  const DISCONNECT: string := "disconnect\n"

  /** The C string held by a raw buffer: its bytes before the first NUL. */
  function CStr(raw: seq<char>): (r: string)
    ensures NoNul(r) && |r| <= |raw| && r == raw[..|r|]
    ensures |r| < |raw| ==> raw[|r|] == NUL
  {
    if raw == [] || raw[0] == NUL then [] else [raw[0]] + CStr(raw[1..])
  }

  /** A terminated copy of a string reads back as that string. */
  lemma {:induction false} CStrTerminated(b: string)
    requires NoNul(b)
    ensures CStr(b + [NUL]) == b
  {
    if b != [] {
      assert b[0] in b;
      assert (b + [NUL])[1..] == b[1..] + [NUL];
      assert NoNul(b[1..]) by {
        forall k | 0 <= k < |b[1..]| ensures b[1..][k] != NUL {
          assert b[1..][k] == b[k + 1] && b[k + 1] in b;
        }
      }
      CStrTerminated(b[1..]);
      assert [b[0]] + b[1..] == b;
    }
  }

  /**
   * The raw buffer during the scan: b and its NUL, with buf[0] overwritten by a
   * NUL once something was sent.
   */
  function Raw(b: string, cleared: bool): (raw: seq<char>)
    requires cleared ==> |b| > 0
    ensures |raw| == |b| + 1 && raw[|b|] == NUL
    ensures forall j :: 0 < j < |b| ==> raw[j] == b[j]
  {
    (if cleared then [NUL] + b[1..] else b) + [NUL]
  }

  /**
   * What the scan reads at a newline: the whole of b before the first send, the
   * empty string after it; clearing buf[0] (again) gives the cleared buffer.
   */
  lemma RawLine(b: string, cleared: bool)
    requires NoNul(b) && (cleared ==> |b| > 0)
    ensures CStr(Raw(b, cleared)) == if cleared then "" else b
    ensures |b| > 0 ==> Raw(b, cleared)[0 := NUL] == Raw(b, true)
    ensures NoNul(DISCONNECT)
  {
    if !cleared {
      CStrTerminated(b);
    }
    if |b| > 0 {
      assert Raw(b, cleared)[0 := NUL] == Raw(b, true);
    }
  }

  /** The number of newlines at indices lo..hi-1 of s. */
  function CountNl(s: string, lo: int, hi: int): (n: nat)
    requires 0 <= lo && hi <= |s|
    ensures n <= if hi <= lo then 0 else hi - lo
    decreases hi
  {
    if hi <= lo then 0 else CountNl(s, lo, hi - 1) + (if s[hi - 1] == '\n' then 1 else 0)
  }

  /** The count up to hi is the count up to hi - 1 plus s[hi - 1]'s. */
  lemma CountNlStep(s: string, lo: int, hi: int)
    requires 0 <= lo < hi <= |s|
    ensures CountNl(s, lo, hi) == CountNl(s, lo, hi - 1) + (if s[hi - 1] == '\n' then 1 else 0)
  {
  }

  lemma {:induction false} CountNlSplit(s: string, lo: int, mid: int, hi: int)
    requires 0 <= lo <= mid <= hi <= |s|
    ensures CountNl(s, lo, hi) == CountNl(s, lo, mid) + CountNl(s, mid, hi)
    decreases hi
  {
    if hi > mid {
      CountNlSplit(s, lo, mid, hi - 1);
    }
  }

  /** The index of the last newline at or below i, or -1 when there is none. */
  function LastNl(s: string, i: int): (r: int)
    requires -1 <= i < |s|
    ensures -1 <= r <= i
    ensures r >= 0 ==> s[r] == '\n'
    ensures forall j :: r < j <= i && 0 <= j ==> s[j] != '\n'
    decreases i + 1
  {
    if i < 0 then -1 else if s[i] == '\n' then i else LastNl(s, i - 1)
  }

  /** Past the last newline no newline is counted. */
  lemma {:induction false} CountNlAfterLast(s: string, i: int)
    requires -1 <= i < |s|
    ensures CountNl(s, LastNl(s, i) + 1, i + 1) == 0
    decreases i + 1
  {
    if i >= 0 && s[i] != '\n' {
      CountNlAfterLast(s, i - 1);
    }
  }

  /** n empty strings. */
  function Blanks(n: nat): (r: seq<string>)
    ensures |r| == n && forall k :: 0 <= k < n ==> r[k] == ""
  {
    if n == 0 then [] else [""] + Blanks(n - 1)
  }

  /** The messages one pass of the scan sends, or the drop it decides on. */
  datatype ScanOutcome = Dropped | Sends(msgs: seq<string>)

  /**
   * The descending scan of PF_stuffcmd over b (the buffer after the append),
   * from index i down to 0. `cleared` records that buf[0] has been set to NUL by
   * an earlier send: the C string is then "" and index 0 no longer holds b[0].
   */
  function Scan(b: string, i: int, cleared: bool): ScanOutcome
    requires -1 <= i < |b|
    decreases i + 1
  {
    if i < 0 then Sends([])
    else if b[i] != '\n' || (cleared && i == 0) then Scan(b, i - 1, cleared)
    else if !cleared && b == DISCONNECT then Dropped
    else match Scan(b, i - 1, true)
      case Dropped => Dropped
      case Sends(ms) => Sends([if cleared then "" else b] + ms)
  }

  /** The messages already sent, followed by the outcome of the rest of the scan. */
  function Then(sent: seq<string>, o: ScanOutcome): ScanOutcome
  {
    match o
    case Dropped => Dropped
    case Sends(ms) => Sends(sent + ms)
  }

  /**
   * One send of the scan: at a newline that is still in the buffer, with the
   * buffer not the sentinel, the current C string is sent and the scan goes on
   * with buf[0] cleared.
   */
  lemma SendStep(b: string, i: int, cleared: bool, sent: seq<string>, whole: ScanOutcome)
    requires 0 <= i < |b| && b[i] == '\n' && !(cleared && i == 0)
    requires cleared || b != DISCONNECT
    requires Then(sent, Scan(b, i, cleared)) == whole
    ensures Then(sent + [if cleared then "" else b], Scan(b, i - 1, true)) == whole
  {
    ScanCleared(b, i - 1);
    var ms := Blanks(CountNl(b, 1, i));
    assert sent + ([if cleared then "" else b] + ms) == (sent + [if cleared then "" else b]) + ms;
  }

  /**
   * A newline of the scan, reached with `sent` already sent: the strncmp
   * against "disconnect\n" succeeds exactly before any send on a buffer that is
   * that line, which is the drop; otherwise the current C string is sent and
   * the scan goes on with buf[0] cleared.
   */
  lemma NewlineStep(b: string, i: int, cleared: bool, sent: seq<string>, whole: ScanOutcome, n: nat)
    requires NoNul(b) && |b| < n && 0 <= i < |b| && b[i] == '\n' && !(cleared && i == 0)
    requires cleared <==> sent != []
    requires Then(sent, Scan(b, i, cleared)) == whole
    ensures var cur := CStr(Raw(b, cleared));
            && cur == (if cleared then "" else b)
            && (StrNEqual(cur, DISCONNECT, n) <==> !cleared && b == DISCONNECT)
            && (StrNEqual(cur, DISCONNECT, n) ==> whole == Dropped)
            && (!StrNEqual(cur, DISCONNECT, n) ==> Then(sent + [cur], Scan(b, i - 1, true)) == whole)
  {
    RawLine(b, cleared);
    var cur := CStr(Raw(b, cleared));
    StrNEqualExact(cur, DISCONNECT, n);
    if !StrNEqual(cur, DISCONNECT, n) {
      SendStep(b, i, cleared, sent, whole);
    }
  }

  /** Any other byte of the raw buffer is passed over. */
  lemma SkipStep(b: string, i: int, cleared: bool)
    requires 0 <= i < |b| && (cleared ==> |b| > 0) && Raw(b, cleared)[i] != '\n'
    ensures Scan(b, i, cleared) == Scan(b, i - 1, cleared)
  {
  }

  /** Once buf[0] is cleared, every newline above index 0 sends one empty message. */
  lemma {:induction false} ScanCleared(b: string, i: int)
    requires -1 <= i < |b|
    ensures Scan(b, i, true) == Sends(Blanks(CountNl(b, 1, i + 1)))
    decreases i + 1
  {
    if i >= 0 {
      ScanCleared(b, i - 1);
    }
  }

  /** Before the first send: nothing without a newline, the drop, or b then the blanks. */
  lemma {:induction false} ScanUncleared(b: string, i: int)
    requires -1 <= i < |b|
    ensures var last := LastNl(b, i);
            Scan(b, i, false) ==
              if last < 0 then Sends([])
              else if b == DISCONNECT then Dropped
              else Sends([b] + Blanks(CountNl(b, 1, last)))
    decreases i + 1
  {
    if i >= 0 {
      if b[i] != '\n' {
        ScanUncleared(b, i - 1);
      } else if b != DISCONNECT {
        ScanCleared(b, i - 1);
      }
    }
  }

  /**
   * The messages PF_stuffcmd sends for a buffer b that is not the sentinel: none
   * without a newline; otherwise b whole, then one empty string for each newline
   * strictly between index 0 and the last newline.
   */
  function StuffSends(b: string): seq<string>
  {
    var last := LastNl(b, |b| - 1);
    if last < 0 then [] else [b] + Blanks(CountNl(b, 1, last))
  }

  /** The full scan of PF_stuffcmd agrees with the closed form StuffSends. */
  lemma ScanIsStuffSends(b: string)
    ensures Scan(b, |b| - 1, false) ==
              if '\n' in b && b == DISCONNECT then Dropped else Sends(StuffSends(b))
  {
    ScanUncleared(b, |b| - 1);
    var last := LastNl(b, |b| - 1);
    if '\n' in b {
      var j :| 0 <= j < |b| && b[j] == '\n';
      assert last >= j;
    }
  }

  /** What a successful stuffcmd leaves: the client's buffer, its drop flag, the messages sent. */
  datatype StuffEffect = StuffEffect(buf: string, drop: bool, sends: seq<string>)

  /** PF_stuffcmd's effect on one client whose buffer holds buf, for a buffer of size max. */
  function StuffCmd(buf: string, str: string, max: nat): Result<StuffEffect>
  {
    if |buf| + |str| >= max then Err(RunError("stufftext buffer overflow"))
    else
      var b := buf + str;
      if '\n' !in b then Ok(StuffEffect(b, false, []))
      else if b == DISCONNECT then Ok(StuffEffect("", true, []))
      else Ok(StuffEffect("", false, StuffSends(b)))
  }

  /** An append that does not fit is refused, and nothing else can be refused. */
  lemma StuffOverflow(buf: string, str: string, max: nat)
    ensures StuffCmd(buf, str, max).Err? <==> |buf| + |str| >= max
    ensures StuffCmd(buf, str, max).Err? ==> StuffCmd(buf, str, max).fault == RunError("stufftext buffer overflow")
  {
  }

  /** Without a newline the text just accumulates: nothing is sent, nobody is dropped. */
  lemma StuffAccumulates(buf: string, str: string, max: nat)
    requires |buf| + |str| < max && '\n' !in buf + str
    ensures StuffCmd(buf, str, max) == Ok(StuffEffect(buf + str, false, []))
  {
  }

  /** Exactly "disconnect\n" drops the client, empties the buffer and sends nothing. */
  lemma StuffDisconnect(buf: string, str: string, max: nat)
    requires |buf| + |str| < max && buf + str == DISCONNECT
    ensures StuffCmd(buf, str, max) == Ok(StuffEffect("", true, []))
  {
    assert DISCONNECT[10] == '\n';
  }

  /**
   * Any other buffer holding a newline is sent whole as the first message (text
   * after the last newline included), every later message is empty, the buffer
   * is emptied and the client is not dropped.
   */
  lemma {:induction false} StuffSendsWhole(buf: string, str: string, max: nat)
    requires |buf| + |str| < max && '\n' in buf + str && buf + str != DISCONNECT
    ensures var e := StuffCmd(buf, str, max);
            && e.Ok? && e.value.buf == "" && !e.value.drop
            && |e.value.sends| >= 1 && e.value.sends[0] == buf + str
            && forall k :: 1 <= k < |e.value.sends| ==> e.value.sends[k] == ""
  {
    var b := buf + str;
    var j :| 0 <= j < |b| && b[j] == '\n';
    assert LastNl(b, |b| - 1) >= j;
  }

  /**
   * The number of messages is the number of newlines in the buffer, less one when
   * index 0 holds a newline and a later newline exists: clearing buf[0] after the
   * first send hides the newline at index 0 from the rest of the scan.
   */
  lemma {:induction false} StuffSendsCount(b: string)
    requires '\n' in b
    ensures var total := CountNl(b, 0, |b|);
            |StuffSends(b)| == if b[0] == '\n' && total > 1 then total - 1 else total
  {
    var last := StuffSendsLength(b);
    TotalAtLast(b, last);
    HeadCount(b, last);
  }

  /** With a newline in b, StuffSends is b then one blank per newline in 1..last-1. */
  lemma StuffSendsLength(b: string) returns (last: int)
    requires '\n' in b
    ensures last == LastNl(b, |b| - 1) && 0 <= last < |b| && b[last] == '\n'
    ensures |StuffSends(b)| == 1 + CountNl(b, 1, last)
  {
    last := LastNl(b, |b| - 1);
    var j :| 0 <= j < |b| && b[j] == '\n';
    assert last >= j;
  }

  /** Every newline of b is at or below the last one. */
  lemma TotalAtLast(b: string, last: int)
    requires last == LastNl(b, |b| - 1) && 0 <= last < |b| && b[last] == '\n'
    ensures CountNl(b, 0, |b|) == CountNl(b, 0, last) + 1
  {
    CountNlAfterLast(b, |b| - 1);
    CountNlSplit(b, 0, last + 1, |b|);
    CountNlStep(b, 0, last + 1);
  }

  /** Below the last newline, the count from 0 is the count from 1 plus b[0]'s. */
  lemma HeadCount(b: string, last: int)
    requires 0 <= last < |b|
    ensures CountNl(b, 0, last) == if last == 0 then 0 else (if b[0] == '\n' then 1 else 0) + CountNl(b, 1, last)
  {
    if last > 0 {
      CountNlSplit(b, 0, 1, last);
      assert CountNl(b, 0, 1) == CountNl(b, 0, 0) + (if b[0] == '\n' then 1 else 0);
    }
  }

  /** A successful stuffcmd keeps the buffer within its size and free of newlines. */
  lemma StuffKeepsBuffer(buf: string, str: string, max: nat)
    requires StuffCmd(buf, str, max).Ok?
    ensures var e := StuffCmd(buf, str, max).value;
            |e.buf| < max && '\n' !in e.buf
            && (NoNul(buf) && NoNul(str) ==> NoNul(e.buf))
  {
  }
}
