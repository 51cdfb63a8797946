// The script-managed string table pr_newstrtbl: newstr takes the lowest empty
// slot and hands out the handle -(slot + MAX_PRSTR); freestr decodes the handle
// and empties the slot; clear_strtbl empties every slot.
module DynamicStrings {
  import opened Common

  /** A slot's owned buffer: the copied text and the size allocated for it. */
  datatype DynString = DynString(text: string, size: nat)

  type Table = seq<Option<DynString>>

  /** The handle newstr returns for a slot. */
  function EncodeHandle(slot: nat, maxPrstr: nat): int {
    -(slot + maxPrstr)
  }

  /** The slot freestr computes from a handle. */
  function DecodeHandle(h: int, maxPrstr: nat): int {
    -(h + maxPrstr)
  }

  /** freestr rejects every handle above -MAX_PRSTR. */
  predicate FreeAccepts(h: int, maxPrstr: nat) {
    h <= -(maxPrstr as int)
  }

  /** freestr undoes newstr's encoding, and accepts every handle newstr hands out. */
  lemma DecodeEncode(slot: nat, maxPrstr: nat)
    ensures FreeAccepts(EncodeHandle(slot, maxPrstr), maxPrstr)
    ensures DecodeHandle(EncodeHandle(slot, maxPrstr), maxPrstr) == slot
  {
  }

  /** Every handle freestr accepts names a slot, and is that slot's encoding. */
  lemma EncodeDecode(h: int, maxPrstr: nat)
    requires FreeAccepts(h, maxPrstr)
    ensures DecodeHandle(h, maxPrstr) >= 0
    ensures EncodeHandle(DecodeHandle(h, maxPrstr), maxPrstr) == h
  {
  }

  /** Handles of distinct slots differ, and none is a constant-pool offset (those are >= 0). */
  lemma HandlesDistinct(i: nat, j: nat, maxPrstr: nat)
    requires i != j
    ensures EncodeHandle(i, maxPrstr) != EncodeHandle(j, maxPrstr)
    ensures maxPrstr > 0 ==> EncodeHandle(i, maxPrstr) < 0
  {
  }

  /** The buffer size newstr allocates: strlen + 1, or parm1 when given (argc == 2) and larger. */
  function NewStrSize(s: string, argc: int, parm1: int): (size: nat)
    ensures size >= |s| + 1
    ensures size == |s| + 1 || (argc == 2 && size == parm1)
    ensures argc == 2 && parm1 > |s| + 1 ==> size == parm1
  {
    if argc == 2 && parm1 > |s| + 1 then parm1 else |s| + 1
  }

  /** The first empty slot at or after i, or |t| when there is none. */
  function FirstFreeFrom(t: Table, i: nat): (r: nat)
    requires i <= |t|
    ensures i <= r <= |t|
    ensures forall j :: i <= j < r ==> t[j].Some?
    ensures r < |t| ==> t[r].None?
    decreases |t| - i
  {
    if i == |t| || t[i].None? then i else FirstFreeFrom(t, i + 1)
  }

  /** The lowest empty slot of the table, or |t| when the table is full. */
  function FirstFree(t: Table): (r: nat)
    ensures r <= |t|
    ensures forall j :: 0 <= j < r ==> t[j].Some?
    ensures r < |t| ==> t[r].None?
  {
    FirstFreeFrom(t, 0)
  }

  /** newstr on table t: the new table and the handle, or the exhaustion error. */
  function NewStr(t: Table, s: string, argc: int, parm1: int): Result<(Table, int)>
  {
    var i := FirstFree(t);
    if i == |t| then Err(RunError("PF_newstr: MAX_PRSTR"))
    else
      var size := NewStrSize(s, argc, parm1);
      Ok((t[i := Some(DynString(Truncate(s, size - 1), size))], EncodeHandle(i, |t|)))
  }

  /** newstr fills the lowest empty slot with a full copy of s and returns that slot's handle. */
  lemma NewStrStores(t: Table, s: string, argc: int, parm1: int)
    requires exists j :: 0 <= j < |t| && t[j].None?
    ensures NewStr(t, s, argc, parm1).Ok?
    ensures var (t', h) := NewStr(t, s, argc, parm1).value;
            var i := DecodeHandle(h, |t|);
            && 0 <= i < |t| && t[i].None?
            && (forall j :: 0 <= j < i ==> t[j].Some?)
            && t'[i] == Some(DynString(s, NewStrSize(s, argc, parm1)))
            && (forall j :: 0 <= j < |t| && j != i ==> t'[j] == t[j])
            && |t'| == |t|
  {
  }

  /** newstr fails exactly when every slot is taken, and then changes nothing. */
  lemma NewStrExhausted(t: Table, s: string, argc: int, parm1: int)
    ensures NewStr(t, s, argc, parm1).Err? <==> forall j :: 0 <= j < |t| ==> t[j].Some?
    ensures NewStr(t, s, argc, parm1).Err? ==> NewStr(t, s, argc, parm1).fault == RunError("PF_newstr: MAX_PRSTR")
  {
    var i := FirstFree(t);
    assert i < |t| ==> t[i].None?;
  }

  /** freestr of an accepted handle: that slot, and only it, becomes empty. */
  function FreeStr(t: Table, h: int): (r: Result<Table>)
    requires FreeAccepts(h, |t|) ==> DecodeHandle(h, |t|) < |t|
  {
    if !FreeAccepts(h, |t|) then Err(RunError("freestr: Bad pointer"))
    else Ok(t[DecodeHandle(h, |t|) := None])
  }

  /** A freed slot below every other empty slot is the one the next newstr reuses. */
  lemma {:induction false} FreeThenNewReuses(t: Table, slot: nat, s: string, argc: int, parm1: int)
    requires slot < |t| && t[slot].Some?
    requires forall j :: 0 <= j < slot ==> t[j].Some?
    ensures var h := EncodeHandle(slot, |t|);
            FreeStr(t, h).Ok? &&
            var t' := FreeStr(t, h).value;
            NewStr(t', s, argc, parm1).Ok? && NewStr(t', s, argc, parm1).value.1 == h
  {
    var h := EncodeHandle(slot, |t|);
    DecodeEncode(slot, |t|);
    var t' := t[slot := None];
    assert FreeStr(t, h).value == t';
    var i := FirstFree(t');
    assert t'[slot].None?;
    assert i <= slot;
  }

  /** After a table-wide clear every slot is empty, so the next newstr takes slot 0. */
  lemma ClearedTableAllocatesSlotZero(n: nat, s: string, argc: int, parm1: int)
    requires n > 0
    ensures var t := seq(n, _ => None);
            NewStr(t, s, argc, parm1).Ok? && NewStr(t, s, argc, parm1).value.1 == EncodeHandle(0, n)
  {
    var t: Table := seq(n, _ => None);
    assert t[0].None?;
  }
}
