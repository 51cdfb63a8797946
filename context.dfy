// The globals the builtins of pr_cmds.c keep between calls, gathered in one
// object: the scratch ring and its index, the dynamic string table, the two
// precache tables, the client slots, the demo being recorded, the server-wide
// message buffers, the redirect slot, the command buffer, self/other and the
// changelevel latch. Each builtin that changes them is a method.
module Progs {
  import opened Common
  import opened TempStrings
  import DS = DynamicStrings
  import ST = StuffText
  import opened Routing
  import opened Clients
  import PC = Precache
  import opened Commands

  /** svc_spawnstaticsound, the message ambientsound adds to the signon. */
  const SVC_SPAWNSTATICSOUND: real := 29.0

  /** The edict number of the world, which msg_entity and the rest default to. */
  const WORLD: int := 0

  class Context {
    /** pr_string_buf: the eight scratch buffers. */
    const ring: array<string>
    /** pr_newstrtbl: MAX_PRSTR slots. */
    const strtbl: array<Option<DS.DynString>>
    /** sv.sound_precache and sv.model_precache. */
    const sounds: array<Option<string>>
    const models: array<Option<string>>
    /** MAX_STUFFTEXT, the size of every client's stufftext buffer. */
    const maxStufftext: nat

    /** pr_string_index, and the buffer pr_string_temp points into. */
    var stringIndex: nat
    var temp: nat

    /** sv.state == ss_loading; (int) sv_specprint.value; sv.demorecording. */
    var loading: bool
    var specPrintMode: int
    var demoRecording: bool

    /** svs.clients. */
    var clients: seq<Client>
    /** The dem_single blocks written to the demo, in order. */
    var demo: seq<DemoBlock>
    /** Everything written to the server-wide buffers, in order, with the buffer written to. */
    var sinkLog: seq<(Sink, Item)>

    /** sv_redirected; what was done to it and to the command buffer; the text queued in it. */
    var redirected: int
    var events: seq<Event>
    var pending: seq<string>

    /** pr_global_struct->self and ->other. */
    var self: int
    var other: int

    /** svs.spawncount and PF_changelevel's static last_spawncount. */
    var spawncount: int
    var lastSpawncount: int

    ghost predicate Valid()
      reads this
    {
      && ring.Length == TEMP_BUFFERS && temp < TEMP_BUFFERS
      && sounds != models
      && ValidClients(clients)
      && forall i :: 0 <= i < |clients| ==> NoNul(clients[i].stuff)
    }

    /** A server with every table empty, every client slot free and nothing redirected. */
    constructor (maxPrstr: nat, maxSounds: nat, maxModels: nat, stufftextSize: nat)
      ensures Valid() && fresh(ring) && fresh(strtbl) && fresh(sounds) && fresh(models)
      ensures strtbl.Length == maxPrstr && sounds.Length == maxSounds && models.Length == maxModels
      ensures forall i :: 0 <= i < strtbl.Length ==> strtbl[i].None?
      ensures forall i :: 0 <= i < sounds.Length ==> sounds[i].None?
      ensures forall i :: 0 <= i < models.Length ==> models[i].None?
      ensures maxStufftext == stufftextSize && stringIndex == 0 && temp == 0
      ensures redirected == RD_NONE && events == [] && pending == [] && demo == [] && sinkLog == []
    {
      ring := new string[TEMP_BUFFERS](_ => "");
      strtbl := new Option<DS.DynString>[maxPrstr](_ => None);
      sounds := new Option<string>[maxSounds](_ => None);
      models := new Option<string>[maxModels](_ => None);
      maxStufftext := stufftextSize;
      stringIndex := 0;
      temp := 0;
      loading := false;
      specPrintMode := 0;
      demoRecording := false;
      clients := seq(MAX_CLIENTS, _ => Client(0, false, 0, 0, "", false, []));
      demo := [];
      sinkLog := [];
      redirected := RD_NONE;
      events := [];
      pending := [];
      self := WORLD;
      other := WORLD;
      spawncount := 0;
      lastSpawncount := 0;
    }

    /** PF_SetTempString: point pr_string_temp at buffer pr_string_index & 7, then advance the index. */
    method SetTempString()
      requires Valid()
      modifies this`temp, this`stringIndex
      ensures Valid()
      ensures temp == TempSlot(old(stringIndex)) && stringIndex == old(stringIndex) + 1
    {
      temp := TempSlot(stringIndex);
      stringIndex := stringIndex + 1;
    }

    /** PF_argv: the clamped token, written into the current scratch buffer, which is then rotated. */
    method Argv(args: seq<string>, num: int) returns (r: string)
      requires Valid()
      modifies ring, this`temp, this`stringIndex
      ensures Valid()
      ensures r == ArgvValue(args, num)
      ensures ring[..] == old(ring[..])[old(temp) := r]
      ensures temp == TempSlot(old(stringIndex)) && stringIndex == old(stringIndex) + 1
    {
      var n := num;
      if n < 0 {
        n := 0;
      }
      if n > |args| - 1 {
        n := |args| - 1;
      }
      ring[temp] := Truncate(CmdArgv(args, n), MAX_PR_STRING_SIZE - 1);
      r := ring[temp];
      SetTempString();
    }

    /**
     * PF_substr: "" without touching the ring when the early exit applies;
     * otherwise the strlcpy into the current scratch buffer (which may copy
     * nothing), then a rotation.
     */
    method Substr(s: string, start: int, len: int) returns (r: string)
      requires Valid() && SubstrDefined(s, start, len)
      modifies ring, this`temp, this`stringIndex
      ensures Valid()
      ensures r == SubstrValue(s, start, len, old(ring[temp]))
      ensures SubstrEmpty(s, start, len) ==> unchanged(ring) && unchanged(this)
      ensures !SubstrEmpty(s, start, len) ==>
                && ring[..] == old(ring[..])[old(temp) := r]
                && temp == TempSlot(old(stringIndex)) && stringIndex == old(stringIndex) + 1
    {
      if start >= |s| || len == 0 || |s| == 0 {
        return "";
      }
      var rest := |s| - start;
      var l := len;
      if l > rest + 1 {
        l := rest + 1;
      }
      if l + 1 != 0 {
        var n := if l + 1 < 0 || l >= rest then rest else l;
        ring[temp] := s[start..start + n];
      }
      r := ring[temp];
      SetTempString();
    }

    /** PF_strcat: every argument joined by PF_VarString, copied into the scratch buffer, then a rotation. */
    method Strcat(args: seq<string>) returns (r: string)
      requires Valid()
      modifies ring, this`temp, this`stringIndex
      ensures Valid()
      ensures r == StrcatValue(args)
      ensures ring[..] == old(ring[..])[old(temp) := r]
      ensures temp == TempSlot(old(stringIndex)) && stringIndex == old(stringIndex) + 1
    {
      var joined := VarString(args, 0);
      ring[temp] := joined;
      r := ring[temp];
      SetTempString();
    }

    /** PF_newstr: the lowest empty slot receives a copy of s; its handle is returned. */
    method NewStr(s: string, argc: int, parm1: int) returns (r: Result<int>)
      modifies strtbl
      ensures var e := DS.NewStr(old(strtbl[..]), s, argc, parm1);
              && (e.Err? ==> r == Err(e.fault) && strtbl[..] == old(strtbl[..]))
              && (e.Ok? ==> r == Ok(e.value.1) && strtbl[..] == e.value.0)
    {
      var i := 0;
      while i < strtbl.Length
        invariant 0 <= i <= strtbl.Length
        invariant DS.FirstFreeFrom(strtbl[..], 0) == DS.FirstFreeFrom(strtbl[..], i)
      {
        if strtbl[i].None? {
          break;
        }
        i := i + 1;
      }
      if i == strtbl.Length {
        return Err(RunError("PF_newstr: MAX_PRSTR"));
      }
      var size := |s| + 1;
      if argc == 2 && parm1 > size {
        size := parm1;
      }
      strtbl[i] := Some(DS.DynString(Truncate(s, size - 1), size));
      r := Ok(DS.EncodeHandle(i, strtbl.Length));
    }

    /**
     * PF_freestr: a handle above -MAX_PRSTR is refused; any other empties the
     * slot it encodes. The source checks no upper bound, so the handle must name
     * a slot.
     */
    method FreeStr(h: int) returns (r: Outcome)
      requires DS.FreeAccepts(h, strtbl.Length) ==> DS.DecodeHandle(h, strtbl.Length) < strtbl.Length
      modifies strtbl
      ensures var e := DS.FreeStr(old(strtbl[..]), h);
              && (e.Err? ==> r == Fail(e.fault) && strtbl[..] == old(strtbl[..]))
              && (e.Ok? ==> r == Pass && strtbl[..] == e.value)
    {
      if h > -(strtbl.Length as int) {
        return Fail(RunError("freestr: Bad pointer"));
      }
      var num := -(h + strtbl.Length);
      strtbl[num] := None;
      return Pass;
    }

    /** PF_clear_strtbl: every slot is emptied. */
    method ClearStrTbl()
      modifies strtbl
      ensures forall i :: 0 <= i < strtbl.Length ==> strtbl[i].None?
    {
      var i := 0;
      while i < strtbl.Length
        invariant 0 <= i <= strtbl.Length
        invariant forall j :: 0 <= j < i ==> strtbl[j].None?
      {
        if strtbl[i].Some? {
          strtbl[i] := None;
        }
        i := i + 1;
      }
    }

    /** PF_precache_sound. */
    method PrecacheSound(s: string) returns (r: Outcome)
      modifies sounds
      ensures var e := PC.PrecacheResult(old(sounds[..]), s, loading, PC.Sounds);
              && (e.Ok? ==> r == Pass && sounds[..] == e.value)
              && (e.Err? ==> r == Fail(e.fault) && sounds[..] == old(sounds[..]))
    {
      r := PC.Precache(sounds, s, loading, PC.Sounds);
    }

    /** PF_precache_model. */
    method PrecacheModel(s: string) returns (r: Outcome)
      modifies models
      ensures var e := PC.PrecacheResult(old(models[..]), s, loading, PC.Models);
              && (e.Ok? ==> r == Pass && models[..] == e.value)
              && (e.Err? ==> r == Fail(e.fault) && models[..] == old(models[..]))
    {
      r := PC.Precache(models, s, loading, PC.Models);
    }

    /** The precache check of PF_setmodel: the model index to store, or the run error. */
    method SetModel(m: string) returns (r: Result<nat>)
      ensures r == PC.ModelIndex(models[..], m)
    {
      var i := PC.Lookup(models, m);
      if i.None? {
        return Err(RunError("no precache: " + m + "\n"));
      }
      return Ok(i.value);
    }

    /**
     * PF_ambientsound: a sound that was not precached is skipped (with a console
     * message); otherwise svc_spawnstaticsound, the position, the sound index,
     * the volume and the attenuation are added to the signon.
     */
    method AmbientSound(x: real, y: real, z: real, samp: string, vol: real, attenuation: real)
      modifies this`sinkLog
      ensures var found := PC.FindFrom(sounds[..], samp, 0);
              && (found.None? ==> sinkLog == old(sinkLog))
              && (found.Some? ==> sinkLog == old(sinkLog) + AmbientItems(x, y, z, found.value, vol, attenuation))
    {
      var soundnum := PC.Lookup(sounds, samp);
      if soundnum.None? {
        return;
      }
      sinkLog := sinkLog + AmbientItems(x, y, z, soundnum.value, vol, attenuation);
    }

    /**
     * The PF_Write* builtins: an exact MSG_ONE appends the item to msg_entity's
     * reliable stream (after ClientReliableCheckBlock reserves its size) and,
     * while a demo is recorded, a dem_single block for that slot; any other
     * code appends it to the sink WriteDest picks. A failure changes nothing.
     */
    method Write(dest: real, item: Item, msgEntity: int) returns (r: Outcome)
      requires Valid()
      modifies this`clients, this`demo, this`sinkLog
      ensures Valid()
      ensures match WriteTarget(dest, loading, msgEntity)
              case Err(f) => r == Fail(f) && unchanged(this)
              case Ok(ToClient(k)) =>
                && r == Pass && sinkLog == old(sinkLog)
                && clients == old(clients)[k := Deliver(old(clients)[k], Raw(item))]
                && demo == old(demo) + (if demoRecording then [DemoOf(k, Raw(item))] else [])
              case Ok(ToSink(sink)) =>
                r == Pass && sinkLog == old(sinkLog) + [(sink, item)] && clients == old(clients) && demo == old(demo)
    {
      if dest == MSG_ONE as real {
        if !IsClientNum(msgEntity) {
          return Fail(RunError("WriteDest: not a client"));
        }
        var k := msgEntity - 1;
        clients := clients[k := Deliver(clients[k], Raw(item))];
        if demoRecording {
          demo := demo + [DemoOf(k, Raw(item))];
        }
        return Pass;
      }
      var sink := WriteDest(dest, loading);
      if sink.Err? {
        return Fail(sink.fault);
      }
      sinkLog := sinkLog + [(sink.value, item)];
      return Pass;
    }

    /** Cbuf_AddText: text is queued in the command buffer. */
    method AddText(s: string)
      modifies this`pending
      ensures pending == old(pending) + [s]
    {
      pending := pending + [s];
    }

    /** Cbuf_Execute: the queued text runs under the current redirect and the buffer empties. */
    method Execute()
      modifies this`events, this`pending
      ensures events == old(events) + [Event.Execute(old(pending))] && pending == []
    {
      events := events + [Event.Execute(pending)];
      pending := [];
    }

    /** SV_BeginRedirect: output goes to target from now on. */
    method BeginRedirect(target: int)
      modifies this`events, this`redirected
      ensures events == old(events) + [Begin(target)] && redirected == target
    {
      events := events + [Begin(target)];
      redirected := target;
    }

    /** SV_EndRedirect: output is no longer redirected. */
    method EndRedirect()
      modifies this`events, this`redirected
      ensures events == old(events) + [End] && redirected == RD_NONE
    {
      events := events + [End];
      redirected := RD_NONE;
    }

    /**
     * PF_readcmd: run what is queued, then run s alone with its output captured
     * under RD_MOD, suspending and then restoring any active redirect. captured
     * is the text outputbuf holds after s ran; readcmd returns its first 7999
     * bytes, the strlcpy into its 8000-byte buffer.
     */
    method ReadCmd(s: string, captured: string) returns (out: string)
      modifies this`events, this`pending, this`redirected
      ensures out == Truncate(captured, READCMD_OUTPUT_SIZE - 1)
      ensures events == old(events) + ReadCmdEvents(old(redirected), old(pending), s)
      ensures pending == [] && redirected == old(redirected)
    {
      ghost var e0, p0 := events, pending;
      Execute();
      AddText(s);
      var prev := redirected;
      ghost var head: seq<Event> := [Event.Execute(p0)];
      if prev != RD_NONE {
        EndRedirect();
        head := head + [End];
      }
      assert events == e0 + head && pending == [s];
      BeginRedirect(RD_MOD);
      assert events == e0 + head + [Begin(RD_MOD)];
      Execute();
      assert events == e0 + head + [Begin(RD_MOD), Event.Execute([s])];
      out := Truncate(captured, READCMD_OUTPUT_SIZE - 1);
      EndRedirect();
      assert events == e0 + head + [Begin(RD_MOD), Event.Execute([s]), End];
      if prev != RD_NONE {
        BeginRedirect(prev);
      }
      assert ReadCmdEvents(prev, p0, s) == head + [Begin(RD_MOD), Event.Execute([s]), End]
                                            + (if prev != RD_NONE then [Begin(prev)] else []);
    }

    /**
     * PF_redirectcmd: when something is already redirected it does nothing;
     * a non-client entity is a run error; otherwise s is queued and the buffer
     * runs with its output sent to that client.
     */
    method RedirectCmd(entnum: int, s: string) returns (r: Outcome)
      modifies this`events, this`pending, this`redirected
      ensures old(redirected) != RD_NONE ==> r == Pass && unchanged(this)
      ensures old(redirected) == RD_NONE && !IsClientNum(entnum) ==>
                r == Fail(RunError("Parm 0 not a client")) && unchanged(this)
      ensures old(redirected) == RD_NONE && IsClientNum(entnum) ==>
                && r == Pass && pending == [] && redirected == RD_NONE
                && events == old(events) + RedirectCmdEvents(entnum, old(pending), s)
    {
      if redirected != RD_NONE {
        return Pass;
      }
      if !IsClientNum(entnum) {
        return Fail(RunError("Parm 0 not a client"));
      }
      AddText(s);
      BeginRedirect(RD_MOD + entnum);
      Execute();
      EndRedirect();
      return Pass;
    }

    /**
     * PF_executecmd: the command buffer runs; the mod's console commands it runs
     * may leave self and other at selfAfter and otherAfter, and both are put back.
     */
    method ExecuteCmd(selfAfter: int, otherAfter: int)
      modifies this`events, this`pending, this`self, this`other
      ensures events == old(events) + [Event.Execute(old(pending))] && pending == []
      ensures self == old(self) && other == old(other)
    {
      var oldSelf, oldOther := self, other;
      Execute();
      self, other := selfAfter, otherAfter;
      self, other := oldSelf, oldOther;
    }

    /** PF_changelevel: "map <level>" is queued once per spawncount. */
    method ChangeLevel(level: string)
      modifies this`lastSpawncount, this`pending
      ensures var step := ChangeLevelStep(old(lastSpawncount), spawncount, level);
              lastSpawncount == step.0 && pending == old(pending) + step.1
    {
      if spawncount == lastSpawncount {
        return;
      }
      lastSpawncount := spawncount;
      AddText("map " + level + "\n");
    }

    /**
     * The mirror loop shared by sprint, centerprint and stuffcmd: when the
     * channel's bit is set in sv_specprint, each slot the mirror test admits
     * gets a copy of m.
     */
    method MirrorLoop(entnum: int, ch: Channel, m: Message)
      requires Valid() && IsClientNum(entnum)
      modifies this`clients
      ensures Valid()
      ensures clients == MirrorAll(old(clients), entnum, specPrintMode, ch, m)
    {
      ghost var cs := clients;
      MirrorKeepsGates(cs, entnum, specPrintMode, ch, m);
      if !HasBit(specPrintMode, FlagOf(ch)) {
        MirrorOffWithoutFlag(cs, entnum, specPrintMode, ch, m);
        return;
      }
      var i := 0;
      while i < MAX_CLIENTS
        invariant 0 <= i <= MAX_CLIENTS && |clients| == MAX_CLIENTS
        invariant clients[..i] == MirrorAll(cs, entnum, specPrintMode, ch, m)[..i]
        invariant clients[i..] == cs[i..]
      {
        var gate := if ch == SprintChannel then clients[i] else clients[entnum - 1];
        if gate.state != 0 && clients[i].spectator
           && clients[i].specTrack == entnum && HasBit(gate.specPrint, FlagOf(ch)) {
          assert Mirrors(cs, entnum, specPrintMode, ch, i) by {
            assert clients[entnum - 1].specPrint == cs[entnum - 1].specPrint;
            assert clients[entnum - 1].state == cs[entnum - 1].state;
          }
          clients := clients[i := Deliver(clients[i], m)];
        } else {
          assert !Mirrors(cs, entnum, specPrintMode, ch, i) by {
            assert clients[entnum - 1].specPrint == cs[entnum - 1].specPrint;
            assert clients[entnum - 1].state == cs[entnum - 1].state;
          }
        }
        assert clients[..i + 1] == MirrorAll(cs, entnum, specPrintMode, ch, m)[..i + 1];
        i := i + 1;
      }
      assert clients == clients[..MAX_CLIENTS];
    }

    /**
     * PF_sprint: a non-client is only reported on the console; otherwise the
     * client gets the print, then every spectator the mirror admits.
     */
    method Sprint(entnum: int, level: int, args: seq<string>)
      requires Valid()
      modifies this`clients
      ensures Valid()
      ensures !IsClientNum(entnum) ==> clients == old(clients)
      ensures IsClientNum(entnum) ==>
                var m := Print(level, VarStringValue(args, 2));
                var k := entnum - 1;
                clients == MirrorAll(old(clients)[k := Deliver(old(clients)[k], m)], entnum, specPrintMode, SprintChannel, m)
    {
      var s := VarString(args, 2);
      if !IsClientNum(entnum) {
        return;
      }
      var k := entnum - 1;
      clients := clients[k := Deliver(clients[k], Print(level, s))];
      MirrorLoop(entnum, SprintChannel, Print(level, s));
    }

    /**
     * PF_centerprint: a non-client is only reported on the console; otherwise
     * the client gets the centerprint, the demo records it when recording, and
     * the mirror copies it to admitted spectators.
     */
    method CenterPrint(entnum: int, args: seq<string>)
      requires Valid()
      modifies this`clients, this`demo
      ensures Valid()
      ensures !IsClientNum(entnum) ==> clients == old(clients) && demo == old(demo)
      ensures IsClientNum(entnum) ==>
                var m := Message.CenterPrint(VarStringValue(args, 1));
                var k := entnum - 1;
                && clients == MirrorAll(old(clients)[k := Deliver(old(clients)[k], m)], entnum, specPrintMode, CenterPrintChannel, m)
                && demo == old(demo) + (if demoRecording then [DemoOf(k, m)] else [])
    {
      var s := VarString(args, 1);
      if !IsClientNum(entnum) {
        return;
      }
      var k := entnum - 1;
      var m := Message.CenterPrint(s);
      clients := clients[k := Deliver(clients[k], m)];
      if demoRecording {
        demo := demo + [DemoOf(k, m)];
      }
      MirrorLoop(entnum, CenterPrintChannel, m);
    }

    /**
     * PF_stuffcmd: a non-client or an append that does not fit is a run error;
     * otherwise str is appended to the client's buffer and the buffer is scanned.
     */
    method StuffCmd(entnum: int, str: string) returns (r: Outcome)
      requires Valid() && NoNul(str)
      modifies this`clients, this`demo
      ensures Valid()
      ensures !IsClientNum(entnum) ==>
                r == Fail(RunError("Parm 0 not a client")) && clients == old(clients) && demo == old(demo)
      ensures IsClientNum(entnum) ==>
                var k := entnum - 1;
                var c := old(clients)[k];
                var e := ST.StuffCmd(c.stuff, str, maxStufftext);
                && (e.Err? ==> r == Fail(e.fault) && clients == old(clients) && demo == old(demo))
                && (e.Ok? ==>
                      && r == Pass
                      && clients == StuffSendAll(old(clients)[k := c.(stuff := e.value.buf, drop := c.drop || e.value.drop)],
                                                 entnum, specPrintMode, e.value.sends)
                      && demo == old(demo) + (if demoRecording then StuffDemo(k, e.value.sends) else []))
    {
      if !IsClientNum(entnum) {
        return Fail(RunError("Parm 0 not a client"));
      }
      var k := entnum - 1;
      var buf := clients[k].stuff;
      if |buf| + |str| >= maxStufftext {
        return Fail(RunError("stufftext buffer overflow"));
      }
      var b := StrlCat(buf, str, maxStufftext);
      assert b == buf + str;
      assert NoNul(b) by {
        forall j | 0 <= j < |b| ensures b[j] != NUL {
          if j < |buf| {
            assert b[j] == buf[j] && buf[j] in buf;
          } else {
            assert b[j] == str[j - |buf|] && str[j - |buf|] in str;
          }
        }
      }
      ghost var c0 := clients;
      clients := clients[k := clients[k].(stuff := b)];
      ghost var c1 := clients;
      assert forall x: string :: c1[k := c1[k].(stuff := x)] == c0[k := c0[k].(stuff := x)];
      assert c0[k := c0[k].(stuff := "", drop := true)] == c1[k := c1[k].(stuff := "", drop := true)];
      ScanBuffer(entnum, b);
      ST.ScanIsStuffSends(b);
      if '\n' !in b {
        assert ST.LastNl(b, |b| - 1) < 0;
      }
      return Pass;
    }

    /** Stores a client's stufftext buffer and drop flag. */
    method SetBuffer(entnum: int, buf: string, drop: bool)
      requires Valid() && IsClientNum(entnum) && NoNul(buf)
      modifies this`clients
      ensures Valid()
      ensures clients == old(clients)[entnum - 1 := old(clients)[entnum - 1].(stuff := buf, drop := drop)]
    {
      clients := clients[entnum - 1 := clients[entnum - 1].(stuff := buf, drop := drop)];
    }

    /** buf[0] = 0 on the client's stufftext buffer: its C string becomes empty. */
    method ClearBuffer(entnum: int)
      requires Valid() && IsClientNum(entnum)
      modifies this`clients
      ensures Valid()
      ensures clients == old(clients)[entnum - 1 := old(clients)[entnum - 1].(stuff := "")]
    {
      clients := clients[entnum - 1 := clients[entnum - 1].(stuff := "")];
    }

    /** One send of PF_stuffcmd: the stufftext to the client, its demo block, then the mirror loop. */
    method SendStuffText(entnum: int, text: string)
      requires Valid() && IsClientNum(entnum)
      modifies this`clients, this`demo
      ensures Valid()
      ensures clients == StuffSend(old(clients), entnum, specPrintMode, text)
      ensures demo == old(demo) + (if demoRecording then [DemoOf(entnum - 1, StuffText(text))] else [])
    {
      var k := entnum - 1;
      clients := clients[k := Deliver(clients[k], StuffText(text))];
      if demoRecording {
        demo := demo + [DemoOf(k, StuffText(text))];
      }
      MirrorLoop(entnum, StuffCmdChannel, StuffText(text));
    }

    /**
     * One send of PF_stuffcmd's scan, with `sent` already sent from the
     * client's buffer b: cur (b itself for the first send, "" once buf[0] is
     * cleared) goes to the client, the demo and the mirror, then buf[0] is
     * cleared.
     */
    method SendLine(entnum: int, cur: string, ghost b: string, ghost cleared: bool, ghost sent: seq<string>,
                    ghost c0: seq<Client>, ghost d0: seq<DemoBlock>)
      requires Valid() && IsClientNum(entnum) && |c0| == |clients|
      requires cur == if cleared then "" else b
      requires clients == StuffSendAll(c0[entnum - 1 := c0[entnum - 1].(stuff := cur)], entnum, specPrintMode, sent)
      requires demo == d0 + (if demoRecording then StuffDemo(entnum - 1, sent) else [])
      modifies this`clients, this`demo
      ensures Valid()
      ensures clients == StuffSendAll(c0[entnum - 1 := c0[entnum - 1].(stuff := "")], entnum, specPrintMode, sent + [cur])
      ensures demo == d0 + (if demoRecording then StuffDemo(entnum - 1, sent + [cur]) else [])
    {
      SendStuffText(entnum, cur);
      ClearBuffer(entnum);
      SendStepClients(c0, entnum, specPrintMode, b, cleared, sent);
      StuffDemoStep(d0, demoRecording, entnum - 1, sent, cur);
    }

    /**
     * The state of PF_stuffcmd's descending scan of the client's buffer b at
     * index i, with `sent` sent so far: the raw buffer, what the rest of the
     * scan still does (`whole` is the outcome of the entire scan), and the
     * client slots and demo after the sends, from c0 and d0.
     */
    ghost predicate Scanning(entnum: int, b: string, i: int, raw: string, sent: seq<string>, cleared: bool,
                             c0: seq<Client>, d0: seq<DemoBlock>, whole: ST.ScanOutcome)
      reads this
    {
      && Valid() && IsClientNum(entnum) && NoNul(b) && |b| < maxStufftext && |c0| == |clients|
      && -1 <= i <= |b|
      && (cleared ==> |b| > 0) && raw == ST.Raw(b, cleared)
      && (i == |b| ==> sent == [] && !cleared && whole == ST.Scan(b, |b| - 1, false))
      && (i < |b| ==> ST.Then(sent, ST.Scan(b, i, cleared)) == whole)
      && (cleared <==> sent != [])
      && clients == StuffSendAll(c0[entnum - 1 := c0[entnum - 1].(stuff := if cleared then "" else b)], entnum, specPrintMode, sent)
      && demo == d0 + (if demoRecording then StuffDemo(entnum - 1, sent) else [])
    }

    /** A byte other than a newline changes nothing but the index. */
    lemma PassOver(entnum: int, b: string, i: int, raw: string, sent: seq<string>, cleared: bool,
                   c0: seq<Client>, d0: seq<DemoBlock>, whole: ST.ScanOutcome)
      requires 0 <= i && Scanning(entnum, b, i, raw, sent, cleared, c0, d0, whole) && raw[i] != '\n'
      ensures Scanning(entnum, b, i - 1, raw, sent, cleared, c0, d0, whole)
    {
      if i == |b| {
        assert ST.Then([], whole) == whole;
      } else {
        ST.SkipStep(b, i, cleared);
      }
    }

    /**
     * A newline of the scan whose C string is not exactly "disconnect\n": it is
     * sent, and buf[0] is set to NUL.
     */
    method SendAt(entnum: int, b: string, i: int, raw: string, ghost sent: seq<string>, ghost cleared: bool,
                  ghost c0: seq<Client>, ghost d0: seq<DemoBlock>, ghost whole: ST.ScanOutcome)
      returns (raw': string)
      requires 0 <= i && Scanning(entnum, b, i, raw, sent, cleared, c0, d0, whole) && raw[i] == '\n'
      requires !StrNEqual(ST.CStr(raw), ST.DISCONNECT, maxStufftext)
      modifies this`clients, this`demo
      ensures Scanning(entnum, b, i - 1, raw', sent + [ST.CStr(raw)], true, c0, d0, whole)
    {
      ST.NewlineStep(b, i, cleared, sent, whole, maxStufftext);
      var cur := ST.CStr(raw);
      SendLine(entnum, cur, b, cleared, sent, c0, d0);
      ST.RawLine(b, cleared);
      raw' := raw[0 := NUL];
    }

    /**
     * A newline of the scan: an exact "disconnect\n" drops the client and
     * clears its buffer; anything else is sent.
     */
    method AtNewline(entnum: int, b: string, i: int, raw: string, ghost sent: seq<string>, ghost cleared: bool,
                     ghost c0: seq<Client>, ghost d0: seq<DemoBlock>, ghost whole: ST.ScanOutcome)
      returns (raw': string, dropped: bool, ghost sent': seq<string>, ghost cleared': bool)
      requires 0 <= i && Scanning(entnum, b, i, raw, sent, cleared, c0, d0, whole) && raw[i] == '\n'
      modifies this`clients, this`demo
      ensures Valid()
      ensures dropped ==> whole == ST.Dropped && demo == d0
                          && clients == c0[entnum - 1 := c0[entnum - 1].(stuff := "", drop := true)]
      ensures !dropped ==> Scanning(entnum, b, i - 1, raw', sent', cleared', c0, d0, whole)
    {
      var cur := ST.CStr(raw);
      if StrNEqual(cur, ST.DISCONNECT, maxStufftext) {
        ST.NewlineStep(b, i, cleared, sent, whole, maxStufftext);
        assert c0[entnum - 1 := c0[entnum - 1].(stuff := b)] == clients;
        SetBuffer(entnum, "", true);
        return raw, true, sent, cleared;
      }
      raw' := SendAt(entnum, b, i, raw, sent, cleared, c0, d0, whole);
      return raw', false, sent + [cur], true;
    }

    /** The descending loop of PF_stuffcmd over the client's buffer b, from its terminating NUL down to index 0. */
    method ScanBuffer(entnum: int, b: string)
      requires Valid() && IsClientNum(entnum) && NoNul(b) && |b| < maxStufftext
      requires clients[entnum - 1].stuff == b
      modifies this`clients, this`demo
      ensures Valid()
      ensures var k := entnum - 1;
              var cs := old(clients);
              match ST.Scan(b, |b| - 1, false)
              case Dropped => clients == cs[k := cs[k].(stuff := "", drop := true)] && demo == old(demo)
              case Sends(ms) =>
                && clients == StuffSendAll(cs[k := cs[k].(stuff := if ms == [] then b else "")], entnum, specPrintMode, ms)
                && demo == old(demo) + (if demoRecording then StuffDemo(k, ms) else [])
    {
      ghost var c0 := clients;
      ghost var d0 := demo;
      ghost var whole := ST.Scan(b, |b| - 1, false);
      ghost var sent: seq<string> := [];
      ghost var cleared := false;
      assert c0[entnum - 1 := c0[entnum - 1].(stuff := b)] == c0;
      var raw := b + [NUL];
      var i := |b|;
      while i >= 0
        invariant Scanning(entnum, b, i, raw, sent, cleared, c0, d0, whole)
      {
        if raw[i] == '\n' {
          var dropped;
          raw, dropped, sent, cleared := AtNewline(entnum, b, i, raw, sent, cleared, c0, d0, whole);
          if dropped {
            return;
          }
        } else {
          PassOver(entnum, b, i, raw, sent, cleared, c0, d0, whole);
        }
        i := i - 1;
      }
      assert sent + [] == sent;
    }
  }

  /** The items PF_ambientsound adds to the signon for sound index soundnum. */
  function AmbientItems(x: real, y: real, z: real, soundnum: nat, vol: real, attenuation: real): (r: seq<(Sink, Item)>)
    ensures |r| == 7 && forall j :: 0 <= j < 7 ==> r[j].0 == Signon
    ensures r[4].1 == ByteOf(soundnum as real)
  {
    [(Signon, ByteOf(SVC_SPAWNSTATICSOUND)),
     (Signon, CoordOf(x)), (Signon, CoordOf(y)), (Signon, CoordOf(z)),
     (Signon, ByteOf(soundnum as real)),
     (Signon, ByteOf(vol * 255.0)),
     (Signon, ByteOf(attenuation * 64.0))]
  }
}
