// The console-command builtins as state machines over the redirect slot
// sv_redirected and the command buffer: readcmd runs a command with its output
// captured and puts back whatever redirect was active; redirectcmd runs one
// with its output sent to a client, but only when nothing is redirected;
// executecmd runs the buffer and keeps self and other; changelevel queues one
// "map" command per spawncount.
module Commands {
  import opened Common

  /** sv_redirected when nothing is redirected. */
  const RD_NONE: int := 0
  /** The redirect of readcmd; redirectcmd uses RD_MOD + entnum. */
  const RD_MOD: int := 3
  /** The size of readcmd's static output buffer. */
  const READCMD_OUTPUT_SIZE: nat := 8000

  /** What the builtins do to the redirect slot and the command buffer, in order. */
  datatype Event =
    | Begin(target: int)           // SV_BeginRedirect(target)
    | End                          // SV_EndRedirect()
    | Execute(texts: seq<string>)  // Cbuf_Execute() running the texts queued so far

  /** sv_redirected after one event. */
  function Next(cur: int, e: Event): int
  {
    match e
    case Begin(t) => t
    case End => RD_NONE
    case Execute(_) => cur
  }

  /** An event that does not stack redirects: begin only when none is active, end only when one is. */
  predicate Allowed(cur: int, e: Event)
  {
    match e
    case Begin(t) => cur == RD_NONE && t != RD_NONE
    case End => cur != RD_NONE
    case Execute(_) => true
  }

  /** The command-buffer run an event performs, with the redirect active while it runs. */
  function Ran(cur: int, e: Event): seq<(seq<string>, int)>
  {
    if e.Execute? then [(e.texts, cur)] else []
  }

  /** sv_redirected after the events, from cur. */
  function Replay(cur: int, evs: seq<Event>): int
    decreases |evs|
  {
    if evs == [] then cur else Replay(Next(cur, evs[0]), evs[1..])
  }

  /** Redirects are never stacked along the events. */
  predicate Balanced(cur: int, evs: seq<Event>)
    decreases |evs|
  {
    evs == [] || (Allowed(cur, evs[0]) && Balanced(Next(cur, evs[0]), evs[1..]))
  }

  /** Each command-buffer run of the events with the redirect active while it ran. */
  function ExecutedUnder(cur: int, evs: seq<Event>): seq<(seq<string>, int)>
    decreases |evs|
  {
    if evs == [] then [] else Ran(cur, evs[0]) + ExecutedUnder(Next(cur, evs[0]), evs[1..])
  }

  /** Events run one at a time. */
  lemma Step(cur: int, e: Event, rest: seq<Event>)
    ensures Replay(cur, [e] + rest) == Replay(Next(cur, e), rest)
    ensures Balanced(cur, [e] + rest) == (Allowed(cur, e) && Balanced(Next(cur, e), rest))
    ensures ExecutedUnder(cur, [e] + rest) == Ran(cur, e) + ExecutedUnder(Next(cur, e), rest)
  {
    assert ([e] + rest)[0] == e && ([e] + rest)[1..] == rest;
  }

  /**
   * The events of readcmd(s) when sv_redirected is `prev` and `pending` is
   * queued: the pending text runs first, the active redirect (if any) is ended,
   * s runs under RD_MOD, and the previous redirect is begun again.
   */
  function ReadCmdEvents(prev: int, pending: seq<string>, s: string): seq<Event>
  {
    [Execute(pending)]
    + (if prev != RD_NONE then [End] else [])
    + [Begin(RD_MOD), Execute([s]), End]
    + (if prev != RD_NONE then [Begin(prev)] else [])
  }

  /**
   * readcmd leaves the redirect as it found it, never stacks two redirects,
   * runs what was pending under the previous redirect and runs s, alone, with
   * its output captured under RD_MOD.
   */
  lemma ReadCmdRestores(prev: int, pending: seq<string>, s: string)
    ensures var evs := ReadCmdEvents(prev, pending, s);
            && Replay(prev, evs) == prev
            && Balanced(prev, evs)
            && ExecutedUnder(prev, evs) == [(pending, prev), ([s], RD_MOD)]
  {
    var back: seq<Event> := if prev != RD_NONE then [Begin(prev)] else [];
    Step(RD_NONE, End, []);
    if prev != RD_NONE {
      Step(RD_NONE, Begin(prev), []);
    }
    Step(RD_MOD, End, back);
    Step(RD_MOD, Execute([s]), [End] + back);
    Step(RD_NONE, Begin(RD_MOD), [Execute([s]), End] + back);
    var mid := [Begin(RD_MOD), Execute([s]), End] + back;
    assert mid == [Begin(RD_MOD)] + ([Execute([s])] + ([End] + back));
    var evs := ReadCmdEvents(prev, pending, s);
    if prev != RD_NONE {
      Step(prev, End, mid);
      Step(prev, Execute(pending), [End] + mid);
      assert evs == [Execute(pending)] + ([End] + mid);
    } else {
      Step(prev, Execute(pending), mid);
      assert evs == [Execute(pending)] + mid;
    }
  }

  /** The events of redirectcmd(entnum, s) when nothing is redirected. */
  function RedirectCmdEvents(entnum: int, pending: seq<string>, s: string): seq<Event>
  {
    [Begin(RD_MOD + entnum), Execute(pending + [s]), End]
  }

  /**
   * redirectcmd runs the queued text, s last, with output going to the client,
   * and ends with nothing redirected, as it started.
   */
  lemma RedirectCmdRuns(entnum: int, pending: seq<string>, s: string)
    requires IsClientNum(entnum)
    ensures var evs := RedirectCmdEvents(entnum, pending, s);
            && Replay(RD_NONE, evs) == RD_NONE
            && Balanced(RD_NONE, evs)
            && ExecutedUnder(RD_NONE, evs) == [(pending + [s], RD_MOD + entnum)]
  {
    var t := RD_MOD + entnum;
    Step(t, End, []);
    Step(t, Execute(pending + [s]), [End]);
    Step(RD_NONE, Begin(t), [Execute(pending + [s]), End]);
    assert RedirectCmdEvents(entnum, pending, s) == [Begin(t)] + ([Execute(pending + [s])] + [End]);
  }

  /** PF_changelevel's latch: (last_spawncount after the call, texts queued). */
  function ChangeLevelStep(last: int, spawncount: int, level: string): (r: (int, seq<string>))
    ensures r.0 == spawncount
  {
    if spawncount == last then (last, [])
    else (spawncount, ["map " + level + "\n"])
  }

  /**
   * changelevel queues a map command only the first time in a spawncount:
   * a second call in the same level queues nothing, whatever map it names.
   */
  lemma ChangeLevelOnce(last: int, spawncount: int, m1: string, m2: string)
    ensures |ChangeLevelStep(last, spawncount, m1).1| <= 1
    ensures ChangeLevelStep(last, spawncount, m1).1 == [] <==> spawncount == last
    ensures ChangeLevelStep(ChangeLevelStep(last, spawncount, m1).0, spawncount, m2).1 == []
  {
  }
}
