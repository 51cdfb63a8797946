// The sound and model precache tables: precache_sound / precache_model insert a
// name into the first empty slot unless it is already there, only while the
// level is loading; setmodel and ambientsound look a name up by scanning the
// slots up to the first empty one.
module Precache {
  import opened Common

  /** A precache table: sv.sound_precache or sv.model_precache, None for a NULL slot. */
  type Table = seq<Option<string>>

  datatype Kind = Sounds | Models

  /** The first byte of a string as the x86 signed char the comparison in PR_CheckEmptyString sees. */
  function SignedByte(c: char): (v: int)
    ensures -128 <= v < 128
  {
    var b := c as int % 256;
    if b >= 128 then b - 256 else b
  }

  /** PR_CheckEmptyString rejects s: its first byte, signed, is at most ' ' (the NUL of "" included). */
  predicate BadString(s: string) {
    s == [] || SignedByte(s[0]) <= 32
  }

  /**
   * A name is accepted exactly when its first byte is a printable ASCII byte
   * above the space: control bytes, the space and every byte from 0x80 up
   * (negative as a signed char) are refused.
   */
  lemma BadStringBytes(s: string)
    ensures !BadString(s) <==> s != [] && 32 < s[0] as int % 256 < 128
  {
  }

  /** The index where the insertion loop stops from i on: an empty slot, a slot holding s, or |t|. */
  function FirstSlotFrom(t: Table, s: string, i: nat): (r: nat)
    requires i <= |t|
    ensures i <= r <= |t|
    ensures forall j :: i <= j < r ==> t[j].Some? && t[j] != Some(s)
    ensures r < |t| ==> t[r].None? || t[r] == Some(s)
    decreases |t| - i
  {
    if i == |t| || t[i].None? || t[i] == Some(s) then i else FirstSlotFrom(t, s, i + 1)
  }

  function OverflowMessage(kind: Kind): string {
    match kind
    case Sounds => "PF_precache_sound: overflow"
    case Models => "PF_precache_model: overflow"
  }

  const LOADING_ONLY: string := "PF_Precache_*: Precache can only be done in spawn functions"

  /** precache_sound / precache_model on table t: the new table, or the run error raised. */
  function PrecacheResult(t: Table, s: string, loading: bool, kind: Kind): Result<Table>
  {
    if !loading then Err(RunError(LOADING_ONLY))
    else if BadString(s) then Err(RunError("Bad string"))
    else
      var i := FirstSlotFrom(t, s, 0);
      if i == |t| then Err(RunError(OverflowMessage(kind)))
      else if t[i].None? then Ok(t[i := Some(s)])
      else Ok(t)
  }

  /** PF_precache_sound / PF_precache_model: the insertion loop over the table array. */
  method Precache(tbl: array<Option<string>>, s: string, loading: bool, kind: Kind) returns (r: Outcome)
    modifies tbl
    ensures PrecacheResult(old(tbl[..]), s, loading, kind).Ok? ==>
              r == Pass && tbl[..] == PrecacheResult(old(tbl[..]), s, loading, kind).value
    ensures PrecacheResult(old(tbl[..]), s, loading, kind).Err? ==>
              r == Fail(PrecacheResult(old(tbl[..]), s, loading, kind).fault) && tbl[..] == old(tbl[..])
  {
    if !loading {
      return Fail(RunError(LOADING_ONLY));
    }
    if BadString(s) {
      return Fail(RunError("Bad string"));
    }
    var i := 0;
    while i < tbl.Length
      invariant 0 <= i <= tbl.Length && tbl[..] == old(tbl[..])
      invariant FirstSlotFrom(tbl[..], s, 0) == FirstSlotFrom(tbl[..], s, i)
    {
      if tbl[i].None? {
        tbl[i] := Some(s);
        return Pass;
      }
      if tbl[i] == Some(s) {
        return Pass;
      }
      i := i + 1;
    }
    return Fail(RunError(OverflowMessage(kind)));
  }

  /** The used slots form a prefix: no name follows an empty slot. */
  predicate Packed(t: Table) {
    forall i, j :: 0 <= i < j < |t| && t[i].None? ==> t[j].None?
  }

  /** No name is stored twice. */
  predicate Distinct(t: Table) {
    forall i, j :: 0 <= i < j < |t| && t[i].Some? ==> t[i] != t[j]
  }

  predicate WellFormed(t: Table) {
    Packed(t) && Distinct(t)
  }

  /**
   * A successful precache keeps the table packed and duplicate-free, keeps every
   * stored name, fills at most one slot, and leaves s in the table.
   */
  lemma PrecachePreserves(t: Table, s: string, loading: bool, kind: Kind)
    requires WellFormed(t) && PrecacheResult(t, s, loading, kind).Ok?
    ensures var t' := PrecacheResult(t, s, loading, kind).value;
            && WellFormed(t') && |t'| == |t|
            && Some(s) in t'
            && (forall j :: 0 <= j < |t| && t[j].Some? ==> t'[j] == t[j])
            && (forall j, k :: 0 <= j < k < |t| && t'[j] != t[j] && t'[k] != t[k] ==> false)
  {
    var i := FirstSlotFrom(t, s, 0);
    var t' := PrecacheResult(t, s, loading, kind).value;
    assert t'[i] == Some(s);
  }

  /** Precaching a name that is already present changes nothing. */
  lemma PrecachePresentUnchanged(t: Table, s: string, kind: Kind)
    requires Packed(t) && Some(s) in t && !BadString(s)
    ensures PrecacheResult(t, s, true, kind) == Ok(t)
  {
    var j :| 0 <= j < |t| && t[j] == Some(s);
    var i := FirstSlotFrom(t, s, 0);
    assert i <= j;
  }

  /** Precaching is idempotent: a second identical call finds the name and changes nothing. */
  lemma PrecacheIdempotent(t: Table, s: string, loading: bool, kind: Kind)
    requires Packed(t) && PrecacheResult(t, s, loading, kind).Ok?
    ensures var t' := PrecacheResult(t, s, loading, kind).value;
            PrecacheResult(t', s, loading, kind) == Ok(t')
  {
    var i := FirstSlotFrom(t, s, 0);
    var t' := PrecacheResult(t, s, loading, kind).value;
    assert t'[i] == Some(s);
    assert Packed(t') by {
      forall a, b | 0 <= a < b < |t'| && t'[a].None? ensures t'[b].None? {
        assert t[a].None?;
      }
    }
    PrecachePresentUnchanged(t', s, kind);
  }

  /** The overflow error is raised exactly when every slot holds some other name. */
  lemma PrecacheOverflow(t: Table, s: string, kind: Kind)
    requires !BadString(s)
    ensures PrecacheResult(t, s, true, kind) == Err(RunError(OverflowMessage(kind))) <==>
              forall j :: 0 <= j < |t| ==> t[j].Some? && t[j] != Some(s)
  {
    assert OverflowMessage(kind) != LOADING_ONLY && OverflowMessage(kind) != "Bad string";
  }

  /** The two guards come first: outside loading, then for a bad name, the table is never looked at. */
  lemma PrecacheGuards(t: Table, s: string, loading: bool, kind: Kind)
    ensures !loading ==> PrecacheResult(t, s, loading, kind) == Err(RunError(LOADING_ONLY))
    ensures loading && BadString(s) ==> PrecacheResult(t, s, loading, kind) == Err(RunError("Bad string"))
  {
  }

  /** The lookup of setmodel / ambientsound from slot i on: the index of s before the first empty slot. */
  function FindFrom(t: Table, s: string, i: nat): (r: Option<nat>)
    requires i <= |t|
    ensures r.Some? ==> i <= r.value < |t| && t[r.value] == Some(s)
    ensures r.Some? ==> forall j :: i <= j < r.value ==> t[j].Some? && t[j] != Some(s)
    ensures r.None? ==> forall j :: i <= j < |t| && t[j] == Some(s) ==> exists k :: i <= k < j && t[k].None?
    decreases |t| - i
  {
    if i == |t| || t[i].None? then None
    else if t[i] == Some(s) then Some(i)
    else FindFrom(t, s, i + 1)
  }

  /** In a packed table the lookup finds a name exactly when it is stored. */
  lemma FindInPacked(t: Table, s: string)
    requires Packed(t)
    ensures FindFrom(t, s, 0).Some? <==> Some(s) in t
  {
    if Some(s) in t {
      var j :| 0 <= j < |t| && t[j] == Some(s);
    }
  }

  /** After a successful precache the lookup finds the name. */
  lemma FindAfterPrecache(t: Table, s: string, loading: bool, kind: Kind)
    requires Packed(t) && PrecacheResult(t, s, loading, kind).Ok?
    ensures var t' := PrecacheResult(t, s, loading, kind).value;
            FindFrom(t', s, 0).Some? && t'[FindFrom(t', s, 0).value] == Some(s)
  {
    var t' := PrecacheResult(t, s, loading, kind).value;
    PrecacheIdempotent(t, s, loading, kind);
    var i := FirstSlotFrom(t', s, 0);
    assert i < |t'| && t'[i] == Some(s);
  }

  /** The lookup loop of PF_setmodel / PF_ambientsound: scan the slots until an empty one. */
  method Lookup(tbl: array<Option<string>>, s: string) returns (r: Option<nat>)
    ensures r == FindFrom(tbl[..], s, 0)
  {
    var i := 0;
    while i < tbl.Length && tbl[i].Some?
      invariant 0 <= i <= tbl.Length
      invariant FindFrom(tbl[..], s, 0) == FindFrom(tbl[..], s, i)
    {
      if tbl[i] == Some(s) {
        return Some(i);
      }
      i := i + 1;
    }
    return None;
  }

  /** setmodel's model index for m, or the run error for a model that was not precached. */
  function ModelIndex(models: Table, m: string): (r: Result<nat>)
    ensures r.Ok? ==> r.value < |models| && models[r.value] == Some(m)
    ensures r.Err? ==> r.fault == RunError("no precache: " + m + "\n")
  {
    match FindFrom(models, m, 0)
    case None => Err(RunError("no precache: " + m + "\n"))
    case Some(i) => Ok(i)
  }

  /** A precached model is always found by setmodel, at the slot precache gave it. */
  lemma SetModelAfterPrecache(t: Table, m: string, kind: Kind)
    requires WellFormed(t) && PrecacheResult(t, m, true, kind).Ok?
    ensures var t' := PrecacheResult(t, m, true, kind).value;
            && ModelIndex(t', m).Ok?
            && forall j :: 0 <= j < |t'| && t'[j] == Some(m) ==> ModelIndex(t', m).value == j
  {
    FindAfterPrecache(t, m, true, kind);
    PrecachePreserves(t, m, true, kind);
  }
}
