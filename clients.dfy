// The client slots the print builtins write to, and the spectator mirroring
// that copies a client's prints to the spectators tracking it. sprint tests the
// spectator's own state and spec_print; centerprint and stuffcmd test the
// state and spec_print of the client being printed to.
module Clients {
  import opened Common
  import opened Routing

  const SPECPRINT_CENTERPRINT: nat := 1
  const SPECPRINT_SPRINT: nat := 2
  const SPECPRINT_STUFFCMD: nat := 4

  /** `mask & bit != 0` for a power of two `bit`, on two's-complement integers. */
  predicate HasBit(mask: int, bit: nat)
    requires bit > 0
  {
    (mask / bit) % 2 == 1
  }

  /** The three mirrored print builtins. */
  datatype Channel = SprintChannel | CenterPrintChannel | StuffCmdChannel

  /** The sv_specprint / spec_print flag of a channel. */
  function FlagOf(ch: Channel): (bit: nat)
    ensures bit > 0
  {
    match ch
    case SprintChannel => SPECPRINT_SPRINT
    case CenterPrintChannel => SPECPRINT_CENTERPRINT
    case StuffCmdChannel => SPECPRINT_STUFFCMD
  }

  /** The fields of a client_t the builtins read or write. */
  datatype Client = Client(
    state: int,              // 0 is cs_free
    spectator: bool,
    specTrack: int,          // entity number the spectator follows
    specPrint: int,          // the spectator's spec_print flags
    stuff: string,           // stufftext_buf
    drop: bool,
    reliable: seq<Message>)  // what reached the reliable stream, in order

  predicate ValidClients(cs: seq<Client>) {
    |cs| == MAX_CLIENTS
  }

  /** Appends one reliable message to a client. */
  function Deliver(c: Client, m: Message): Client {
    c.(reliable := c.reliable + [m])
  }

  /**
   * Whether the mirror loop of channel ch, printing to entnum with sv_specprint
   * equal to mode, copies the message to slot i. The client whose state and
   * spec_print are tested is the spectator itself for sprint, and the client
   * printed to for centerprint and stuffcmd.
   */
  predicate Mirrors(cs: seq<Client>, entnum: int, mode: int, ch: Channel, i: int)
    requires ValidClients(cs) && IsClientNum(entnum) && 0 <= i < |cs|
  {
    var gate := if ch == SprintChannel then cs[i] else cs[entnum - 1];
    && HasBit(mode, FlagOf(ch))
    && gate.state != 0 && cs[i].spectator
    && cs[i].specTrack == entnum && HasBit(gate.specPrint, FlagOf(ch))
  }

  /** The client slots after one pass of the mirror loop. */
  function MirrorAll(cs: seq<Client>, entnum: int, mode: int, ch: Channel, m: Message): (r: seq<Client>)
    requires ValidClients(cs) && IsClientNum(entnum)
    ensures ValidClients(r)
  {
    seq(|cs|, i requires 0 <= i < |cs| => if Mirrors(cs, entnum, mode, ch, i) then Deliver(cs[i], m) else cs[i])
  }

  /** Two slot lists that agree on everything the mirror tests read. */
  predicate SameGates(cs: seq<Client>, ds: seq<Client>) {
    |cs| == |ds| &&
    forall i :: 0 <= i < |cs| ==>
      cs[i].state == ds[i].state && cs[i].spectator == ds[i].spectator &&
      cs[i].specTrack == ds[i].specTrack && cs[i].specPrint == ds[i].specPrint
  }

  /**
   * The mirror loop copies the message to exactly the slots Mirrors selects,
   * appending it once and changing nothing else; a slot that is not a spectator
   * tracking entnum is never touched.
   */
  lemma MirrorAllEffect(cs: seq<Client>, entnum: int, mode: int, ch: Channel, m: Message, i: int)
    requires ValidClients(cs) && IsClientNum(entnum) && 0 <= i < |cs|
    ensures var r := MirrorAll(cs, entnum, mode, ch, m);
            && (r[i].reliable == cs[i].reliable + [m] <==> Mirrors(cs, entnum, mode, ch, i))
            && (!Mirrors(cs, entnum, mode, ch, i) ==> r[i] == cs[i])
            && r[i].(reliable := cs[i].reliable) == cs[i]
            && (!cs[i].spectator || cs[i].specTrack != entnum ==> r[i] == cs[i])
  {
    var r := MirrorAll(cs, entnum, mode, ch, m);
    if !Mirrors(cs, entnum, mode, ch, i) {
      assert r[i] == cs[i];
      assert |cs[i].reliable + [m]| != |cs[i].reliable|;
    }
  }

  /** With the channel's bit clear in sv_specprint nothing is mirrored. */
  lemma MirrorOffWithoutFlag(cs: seq<Client>, entnum: int, mode: int, ch: Channel, m: Message)
    requires ValidClients(cs) && IsClientNum(entnum) && !HasBit(mode, FlagOf(ch))
    ensures MirrorAll(cs, entnum, mode, ch, m) == cs
  {
  }

  /** sprint is mirrored only to connected spectators that set the sprint bit themselves. */
  lemma SprintHonoursSpectatorFlags(cs: seq<Client>, entnum: int, mode: int, m: Message, i: int)
    requires ValidClients(cs) && IsClientNum(entnum) && 0 <= i < |cs|
    requires cs[i].state == 0 || !HasBit(cs[i].specPrint, SPECPRINT_SPRINT)
    ensures MirrorAll(cs, entnum, mode, SprintChannel, m)[i] == cs[i]
  {
  }

  /** centerprint and stuffcmd are not mirrored at all when the client printed to is a free slot. */
  lemma PrimaryGateClosed(cs: seq<Client>, entnum: int, mode: int, ch: Channel, m: Message)
    requires ValidClients(cs) && IsClientNum(entnum) && ch != SprintChannel
    requires cs[entnum - 1].state == 0 || !HasBit(cs[entnum - 1].specPrint, FlagOf(ch))
    ensures MirrorAll(cs, entnum, mode, ch, m) == cs
  {
  }

  /**
   * centerprint ignores the spectator's own flags: a free spectator slot with
   * spec_print 0 that tracks client 1 still receives client 1's centerprint when
   * client 1 is connected and has the centerprint bit set.
   */
  lemma CenterPrintIgnoresSpectatorFlags()
    ensures var primary := Client(2, false, 0, SPECPRINT_CENTERPRINT, "", false, []);
            var spec := Client(0, true, 1, 0, "", false, []);
            var cs := [primary, spec] + seq(MAX_CLIENTS - 2, _ => spec);
            && ValidClients(cs)
            && Mirrors(cs, 1, SPECPRINT_CENTERPRINT, CenterPrintChannel, 1)
            && !Mirrors(cs, 1, SPECPRINT_SPRINT, SprintChannel, 1)
  {
    var primary := Client(2, false, 0, SPECPRINT_CENTERPRINT, "", false, []);
    var spec := Client(0, true, 1, 0, "", false, []);
    var cs := [primary, spec] + seq(MAX_CLIENTS - 2, _ => spec);
    assert cs[0] == primary && cs[1] == spec;
  }

  /** A mirror pass keeps every field the mirror tests read, and every stufftext buffer. */
  lemma MirrorKeepsGates(cs: seq<Client>, entnum: int, mode: int, ch: Channel, m: Message)
    requires ValidClients(cs) && IsClientNum(entnum)
    ensures SameGates(cs, MirrorAll(cs, entnum, mode, ch, m))
    ensures forall i :: 0 <= i < |cs| ==> MirrorAll(cs, entnum, mode, ch, m)[i].stuff == cs[i].stuff
  {
  }

  /** Slots with the same gates are mirrored alike. */
  lemma MirrorsDependOnGatesOnly(cs: seq<Client>, ds: seq<Client>, entnum: int, mode: int, ch: Channel, i: int)
    requires ValidClients(cs) && IsClientNum(entnum) && 0 <= i < |cs| && SameGates(cs, ds)
    ensures Mirrors(cs, entnum, mode, ch, i) == Mirrors(ds, entnum, mode, ch, i)
  {
  }

  /** One stufftext send of PF_stuffcmd: to the client, then to its mirrors. */
  function StuffSend(cs: seq<Client>, entnum: int, mode: int, s: string): (r: seq<Client>)
    requires ValidClients(cs) && IsClientNum(entnum)
    ensures ValidClients(r)
  {
    var k := entnum - 1;
    MirrorAll(cs[k := Deliver(cs[k], StuffText(s))], entnum, mode, StuffCmdChannel, StuffText(s))
  }

  /** The client slots after the sends of one stuffcmd, in order. */
  function StuffSendAll(cs: seq<Client>, entnum: int, mode: int, sends: seq<string>): (r: seq<Client>)
    requires ValidClients(cs) && IsClientNum(entnum)
    ensures ValidClients(r)
    decreases |sends|
  {
    if sends == [] then cs
    else StuffSend(StuffSendAll(cs, entnum, mode, sends[..|sends| - 1]), entnum, mode, sends[|sends| - 1])
  }

  /** The stufftext messages of a list of sends. */
  function StuffMessages(sends: seq<string>): (r: seq<Message>)
    ensures |r| == |sends| && forall j :: 0 <= j < |sends| ==> r[j] == StuffText(sends[j])
  {
    if sends == [] then [] else StuffMessages(sends[..|sends| - 1]) + [StuffText(sends[|sends| - 1])]
  }

  /**
   * Over a whole stuffcmd, the client receives every send in order, every
   * spectator the mirror selects receives the same sequence, every other slot
   * is untouched, and no slot changes anything but its reliable stream.
   * (The client itself is assumed not to be a spectator tracking itself.)
   */
  lemma {:induction false} StuffSendAllEffect(cs: seq<Client>, entnum: int, mode: int, sends: seq<string>, i: int)
    requires ValidClients(cs) && IsClientNum(entnum) && 0 <= i < |cs|
    requires !(cs[entnum - 1].spectator && cs[entnum - 1].specTrack == entnum)
    ensures var r := StuffSendAll(cs, entnum, mode, sends);
            && SameGates(cs, r)
            && r[i].(reliable := cs[i].reliable) == cs[i]
            && (i == entnum - 1 || Mirrors(cs, entnum, mode, StuffCmdChannel, i) ==>
                  r[i].reliable == cs[i].reliable + StuffMessages(sends))
            && (i != entnum - 1 && !Mirrors(cs, entnum, mode, StuffCmdChannel, i) ==> r[i] == cs[i])
    decreases |sends|
  {
    if sends != [] {
      var init := sends[..|sends| - 1];
      var s := sends[|sends| - 1];
      var prev := StuffSendAll(cs, entnum, mode, init);
      StuffSendAllEffect(cs, entnum, mode, init, i);
      StuffSendAllEffect(cs, entnum, mode, init, entnum - 1);
      var k := entnum - 1;
      var mid := prev[k := Deliver(prev[k], StuffText(s))];
      assert SameGates(cs, mid);
      MirrorsDependOnGatesOnly(cs, mid, entnum, mode, StuffCmdChannel, i);
      MirrorAllEffect(mid, entnum, mode, StuffCmdChannel, StuffText(s), i);
      MirrorKeepsGates(mid, entnum, mode, StuffCmdChannel, StuffText(s));
      assert StuffMessages(sends) == StuffMessages(init) + [StuffText(s)];
    }
  }

  /** The demo blocks recording the sends of one stuffcmd to client slot `slot`. */
  function StuffDemo(slot: nat, sends: seq<string>): (r: seq<DemoBlock>)
    ensures |r| == |sends|
    ensures forall j :: 0 <= j < |sends| ==> r[j] == DemoBlock(slot, 2 + |sends[j]|, StuffText(sends[j]))
  {
    if sends == [] then [] else StuffDemo(slot, sends[..|sends| - 1]) + [DemoOf(slot, StuffText(sends[|sends| - 1]))]
  }

  /** Rewriting a client's stufftext buffer commutes with a mirror pass, which never reads it. */
  lemma MirrorAllSetBuffer(cs: seq<Client>, entnum: int, mode: int, ch: Channel, m: Message, k: int, buf: string)
    requires ValidClients(cs) && IsClientNum(entnum) && 0 <= k < |cs|
    ensures var r := MirrorAll(cs, entnum, mode, ch, m);
            MirrorAll(cs[k := cs[k].(stuff := buf)], entnum, mode, ch, m) == r[k := r[k].(stuff := buf)]
  {
    var ds := cs[k := cs[k].(stuff := buf)];
    forall i | 0 <= i < |cs|
      ensures Mirrors(ds, entnum, mode, ch, i) == Mirrors(cs, entnum, mode, ch, i)
    {
      MirrorsDependOnGatesOnly(cs, ds, entnum, mode, ch, i);
    }
  }

  /** Rewriting the client's buffer before a run of stufftext sends is rewriting it after them. */
  lemma {:induction false} StuffSendAllSetBuffer(cs: seq<Client>, entnum: int, mode: int, sends: seq<string>, buf: string)
    requires ValidClients(cs) && IsClientNum(entnum)
    ensures var k := entnum - 1;
            var r := StuffSendAll(cs, entnum, mode, sends);
            StuffSendAll(cs[k := cs[k].(stuff := buf)], entnum, mode, sends) == r[k := r[k].(stuff := buf)]
    decreases |sends|
  {
    if sends != [] {
      var k := entnum - 1;
      var init := sends[..|sends| - 1];
      var s := sends[|sends| - 1];
      StuffSendAllSetBuffer(cs, entnum, mode, init, buf);
      var prev := StuffSendAll(cs, entnum, mode, init);
      var prevB := prev[k := prev[k].(stuff := buf)];
      assert prevB[k := Deliver(prevB[k], StuffText(s))]
          == (prev[k := Deliver(prev[k], StuffText(s))])[k := Deliver(prev[k], StuffText(s)).(stuff := buf)];
      MirrorAllSetBuffer(prev[k := Deliver(prev[k], StuffText(s))], entnum, mode, StuffCmdChannel, StuffText(s), k, buf);
    }
  }

  /** Recording one more send appends its block. */
  lemma StuffDemoSnoc(slot: nat, sends: seq<string>, s: string)
    ensures StuffDemo(slot, sends + [s]) == StuffDemo(slot, sends) + [DemoOf(slot, StuffText(s))]
  {
    assert (sends + [s])[..|sends|] == sends;
  }

  /** The demo after one more send, when blocks are recorded only while recording. */
  lemma StuffDemoStep(d0: seq<DemoBlock>, recording: bool, slot: nat, sends: seq<string>, s: string)
    ensures (d0 + (if recording then StuffDemo(slot, sends) else [])) + (if recording then [DemoOf(slot, StuffText(s))] else [])
         == d0 + (if recording then StuffDemo(slot, sends + [s]) else [])
  {
    StuffDemoSnoc(slot, sends, s);
  }

  /**
   * One send of stuffcmd, followed by clearing the buffer, extends the run of
   * sends from a cleared buffer: whether the buffer held b or was already
   * cleared before the send does not matter, since no send reads it.
   */
  lemma SendStepClients(cs: seq<Client>, entnum: int, mode: int, b: string, cleared: bool, sent: seq<string>)
    requires ValidClients(cs) && IsClientNum(entnum)
    ensures var k := entnum - 1;
            var s := if cleared then "" else b;
            var after := StuffSend(StuffSendAll(cs[k := cs[k].(stuff := s)], entnum, mode, sent), entnum, mode, s);
            after[k := after[k].(stuff := "")] == StuffSendAll(cs[k := cs[k].(stuff := "")], entnum, mode, sent + [s])
  {
    var k := entnum - 1;
    var s := if cleared then "" else b;
    var bx := cs[k := cs[k].(stuff := s)];
    var next := sent + [s];
    assert next[..|next| - 1] == sent;
    StuffSendAllSetBuffer(bx, entnum, mode, next, "");
    assert bx[k := bx[k].(stuff := "")] == cs[k := cs[k].(stuff := "")];
  }
}
