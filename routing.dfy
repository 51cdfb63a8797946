// Where the PF_Write* builtins put their bytes. A destination code other than
// MSG_ONE goes through WriteDest to one of the server-wide buffers; MSG_ONE goes
// to the reliable stream of the client named by msg_entity (Write_GetClient),
// with a mirror into the demo when one is being recorded. The MSG_Write*
// encoders are modelled by the items they append and the bytes those take.
module Routing {
  import opened Common

  const MSG_BROADCAST: int := 0
  const MSG_ONE: int := 1
  const MSG_ALL: int := 2
  const MSG_INIT: int := 3
  const MSG_MULTICAST: int := 4

  /** The server-wide buffers WriteDest can return. */
  datatype Sink =
    | Datagram          // sv.datagram, unreliable to all
    | ReliableDatagram  // sv.reliable_datagram, reliable to all
    | Signon            // sv.signon, the level's init string
    | Multicast         // sv.multicast, sent by a later multicast()

  /** C's float-to-int conversion: the fraction is dropped, rounding toward zero. */
  function TruncToInt(x: real): (n: int)
    ensures x >= 0.0 ==> 0.0 <= n as real <= x < n as real + 1.0
    ensures x < 0.0 ==> n as real - 1.0 < x <= n as real <= 0.0
  {
    if x >= 0.0 then x.Floor else -((-x).Floor)
  }

  /** WriteDest: the switch on (int) dest. */
  function WriteDest(dest: real, loading: bool): Result<Sink>
  {
    var code := TruncToInt(dest);
    if code == MSG_BROADCAST then Ok(Datagram)
    else if code == MSG_ONE then Err(ServerError("Shouldn't be at MSG_ONE"))
    else if code == MSG_ALL then Ok(ReliableDatagram)
    else if code == MSG_INIT then
      (if loading then Ok(Signon)
       else Err(RunError("PF_Write_*: MSG_INIT can only be written in spawn functions")))
    else if code == MSG_MULTICAST then Ok(Multicast)
    else Err(RunError("WriteDest: bad destination"))
  }

  /**
   * WriteDest's destination table: each sink is reached from exactly one code,
   * the init string only while loading, and every other failure is a run error
   * except MSG_ONE, which brings the server down.
   */
  lemma WriteDestTable(dest: real, loading: bool)
    ensures var code := TruncToInt(dest);
            var r := WriteDest(dest, loading);
            && (r == Ok(Datagram) <==> code == MSG_BROADCAST)
            && (r == Ok(ReliableDatagram) <==> code == MSG_ALL)
            && (r == Ok(Signon) <==> code == MSG_INIT && loading)
            && (r == Ok(Multicast) <==> code == MSG_MULTICAST)
            && (r.Err? && r.fault.ServerError? <==> code == MSG_ONE)
            && (r.Err? <==> code !in {MSG_BROADCAST, MSG_ALL, MSG_INIT, MSG_MULTICAST} || (code == MSG_INIT && !loading))
  {
  }

  /** Where one write goes: a server-wide sink or the reliable stream of client slot `slot`. */
  datatype Target = ToSink(sink: Sink) | ToClient(slot: nat)

  /**
   * The routing of every PF_Write*: an exact MSG_ONE goes to msg_entity's client
   * (Write_GetClient), anything else through WriteDest.
   */
  function WriteTarget(dest: real, loading: bool, msgEntity: int): (r: Result<Target>)
    ensures r.Ok? && r.value.ToClient? ==> r.value.slot < MAX_CLIENTS
  {
    if dest == MSG_ONE as real then
      (if !IsClientNum(msgEntity) then Err(RunError("WriteDest: not a client"))
       else Ok(ToClient(msgEntity - 1)))
    else match WriteDest(dest, loading)
      case Err(f) => Err(f)
      case Ok(s) => Ok(ToSink(s))
  }

  /**
   * Because the builtins compare the float itself with MSG_ONE before calling
   * WriteDest, WriteDest's server error is reached exactly by the codes strictly
   * between 1 and 2 (say 1.5), which it truncates to MSG_ONE.
   */
  lemma MsgOneFatalOnlyBetween(dest: real, loading: bool, msgEntity: int)
    ensures var r := WriteTarget(dest, loading, msgEntity);
            r.Err? && r.fault.ServerError? <==> 1.0 < dest < 2.0
  {
  }

  /** The single-client path fails only for a msg_entity that is not a client, and then as a run error. */
  lemma ClientPathRequiresClient(loading: bool, msgEntity: int)
    ensures var r := WriteTarget(MSG_ONE as real, loading, msgEntity);
            && (r.Ok? <==> IsClientNum(msgEntity))
            && (r.Ok? ==> r.value == ToClient(msgEntity - 1))
            && (r.Err? ==> r.fault == RunError("WriteDest: not a client"))
  {
  }

  /**
   * The value one PF_Write* call appends, tagged by the encoder that writes it.
   * PF_WriteEntity writes the entity number with the short encoder everywhere,
   * so it appends a ShortOf.
   */
  datatype Item =
    | ByteOf(v: real)
    | CharOf(v: real)
    | ShortOf(v: real)
    | LongOf(v: real)
    | AngleOf(v: real)
    | CoordOf(v: real)
    | StringOf(s: string)

  /** The bytes each MSG_Write* encoder appends (a string with its terminating NUL). */
  function WireSize(item: Item): nat
  {
    match item
    case ByteOf(_) => 1
    case CharOf(_) => 1
    case ShortOf(_) => 2
    case LongOf(_) => 4
    case AngleOf(_) => 1
    case CoordOf(_) => 2
    case StringOf(s) => |s| + 1
  }

  /**
   * The byte count each PF_Write* passes to ClientReliableCheckBlock and
   * DemoWrite_Begin, as its own source writes it, independently of WireSize:
   * 1 in WriteByte, WriteChar and WriteAngle, 2 in WriteShort, WriteCoord and
   * WriteEntity, 4 in WriteLong, and 1 + strlen in WriteString. (WireSize is
   * what the encoders in the message-buffer code append.)
   */
  function Reserve(item: Item): nat
  {
    match item
    case ByteOf(_) => 1
    case CharOf(_) => 1
    case ShortOf(_) => 2
    case LongOf(_) => 4
    case AngleOf(_) => 1
    case CoordOf(_) => 2
    case StringOf(s) => 1 + |s|
  }

  /** Every single-client write reserves exactly the bytes it then appends. */
  lemma ReserveIsExact(item: Item)
    ensures Reserve(item) == WireSize(item)
    ensures Reserve(item) >= 1
  {
  }

  /**
   * What the demo mirror appends for a write: WriteChar and WriteAngle are
   * recorded with MSG_WriteByte; the rest with their own encoder.
   */
  function DemoItem(item: Item): Item
  {
    match item
    case CharOf(v) => ByteOf(v)
    case AngleOf(v) => ByteOf(v)
    case _ => item
  }

  /**
   * The demo copy has the size the client copy has, so the DemoWrite_Begin size
   * is exact too; only a char or an angle is recorded with another encoder.
   */
  lemma DemoMirrorSameSize(item: Item)
    ensures WireSize(DemoItem(item)) == WireSize(item) == Reserve(item)
    ensures DemoItem(item) != item <==> item.CharOf? || item.AngleOf?
  {
  }

  /** A reliable message as a client's stream records it. */
  datatype Message =
    | Raw(item: Item)                  // one PF_Write* value
    | Print(level: int, text: string)  // SV_ClientPrintf
    | CenterPrint(text: string)        // svc_centerprint
    | StuffText(text: string)          // svc_stufftext

  /**
   * The size reserved for a message by ClientReliableWrite_Begin/CheckBlock:
   * a raw item its own size; a centerprint or stufftext the svc byte plus the
   * string and its NUL. A print reserves inside SV_ClientPrintf (None).
   */
  function MessageReserve(m: Message): (r: Option<nat>)
    ensures r.None? <==> m.Print?
  {
    match m
    case Raw(item) => Some(Reserve(item))
    case Print(_, _) => None
    case CenterPrint(s) => Some(2 + |s|)
    case StuffText(s) => Some(2 + |s|)
  }

  /** One block of a demo recording: dem_single to client slot `slot`, its declared size and content. */
  datatype DemoBlock = DemoBlock(slot: nat, size: nat, msg: Message)

  /** The demo block mirroring a message to client slot `slot`. */
  function DemoOf(slot: nat, m: Message): (b: DemoBlock)
    requires !m.Print?
    ensures b.slot == slot && b.size == MessageReserve(m).value
  {
    match m
    case Raw(item) => DemoBlock(slot, Reserve(item), Raw(DemoItem(item)))
    case CenterPrint(s) => DemoBlock(slot, 2 + |s|, m)
    case StuffText(s) => DemoBlock(slot, 2 + |s|, m)
  }
}
