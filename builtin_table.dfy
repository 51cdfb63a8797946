// The builtin dispatch table pr_builtin: the native function bound to each
// builtin id, in id order. Ids without an implementation are bound to PF_Fixme,
// which always raises a run error.
module BuiltinTable {
  import opened Common

  /** The native functions of pr_builtin, named after their C names without the PF_ / SV_ prefix. */
  datatype Native =
    | Fixme | Makevectors | Setorigin | Setmodel | Setsize | Break | Random | Sound
    | Normalize | Error | Objerror | Vlen | Vectoyaw | Spawn | Remove | Traceline
    | Checkclient | Find | PrecacheSound | PrecacheModel | Stuffcmd | Findradius | Bprint | Sprint
    | Dprint | Ftos | Vtos | Coredump | Traceon | Traceoff | Eprint | Walkmove
    | Droptofloor | Lightstyle | Rint | Floor | Ceil | Checkbottom | Pointcontents | Fabs
    | Aim | Cvar | Localcmd | Nextent | Changeyaw | Vectoangles | WriteByte | WriteChar
    | WriteShort | WriteLong | WriteCoord | WriteAngle | WriteString | WriteEntity | Sin | Cos
    | Sqrt | Min | Max | MoveToGoal | PrecacheFile | Makestatic | Changelevel | CvarSet
    | Centerprint | Ambientsound | Setspawnparms | Logfrag | Infokey | Stof | Multicast | Executecmd
    | Tokanize | Argc | Argv | Teamfield | Substr | Strcat | Strlen | Str2byte
    | Str2short | Newstr | Freestr | Conprint | Readcmd | Strcpy | Strstr | Strncpy
    | Log | Redirectcmd | Calltimeofday | Forcedemoframe | Findmap | Listmaps | Findmapname

  /** Number of ids in pr_builtin. */
  const NUM_BUILTINS: int := 107

  /** The native function at each id of pr_builtin. */
  function Builtin(id: int): Native
    requires 0 <= id < NUM_BUILTINS
  {
    match id
    case 0 => Fixme
    case 1 => Makevectors
    case 2 => Setorigin
    case 3 => Setmodel
    case 4 => Setsize
    case 5 => Fixme
    case 6 => Break
    case 7 => Random
    case 8 => Sound
    case 9 => Normalize
    case 10 => Error
    case 11 => Objerror
    case 12 => Vlen
    case 13 => Vectoyaw
    case 14 => Spawn
    case 15 => Remove
    case 16 => Traceline
    case 17 => Checkclient
    case 18 => Find
    case 19 => PrecacheSound
    case 20 => PrecacheModel
    case 21 => Stuffcmd
    case 22 => Findradius
    case 23 => Bprint
    case 24 => Sprint
    case 25 => Dprint
    case 26 => Ftos
    case 27 => Vtos
    case 28 => Coredump
    case 29 => Traceon
    case 30 => Traceoff
    case 31 => Eprint
    case 32 => Walkmove
    case 33 => Fixme
    case 34 => Droptofloor
    case 35 => Lightstyle
    case 36 => Rint
    case 37 => Floor
    case 38 => Ceil
    case 39 => Fixme
    case 40 => Checkbottom
    case 41 => Pointcontents
    case 42 => Fixme
    case 43 => Fabs
    case 44 => Aim
    case 45 => Cvar
    case 46 => Localcmd
    case 47 => Nextent
    case 48 => Fixme
    case 49 => Changeyaw
    case 50 => Fixme
    case 51 => Vectoangles
    case 52 => WriteByte
    case 53 => WriteChar
    case 54 => WriteShort
    case 55 => WriteLong
    case 56 => WriteCoord
    case 57 => WriteAngle
    case 58 => WriteString
    case 59 => WriteEntity
    case 60 => Sin
    case 61 => Cos
    case 62 => Sqrt
    case 63 => Min
    case 64 => Max
    case 65 => Fixme
    case 66 => Fixme
    case 67 => MoveToGoal
    case 68 => PrecacheFile
    case 69 => Makestatic
    case 70 => Changelevel
    case 71 => Fixme
    case 72 => CvarSet
    case 73 => Centerprint
    case 74 => Ambientsound
    case 75 => PrecacheModel
    case 76 => PrecacheSound
    case 77 => PrecacheFile
    case 78 => Setspawnparms
    case 79 => Logfrag
    case 80 => Infokey
    case 81 => Stof
    case 82 => Multicast
    case 83 => Executecmd
    case 84 => Tokanize
    case 85 => Argc
    case 86 => Argv
    case 87 => Teamfield
    case 88 => Substr
    case 89 => Strcat
    case 90 => Strlen
    case 91 => Str2byte
    case 92 => Str2short
    case 93 => Newstr
    case 94 => Freestr
    case 95 => Conprint
    case 96 => Readcmd
    case 97 => Strcpy
    case 98 => Strstr
    case 99 => Strncpy
    case 100 => Log
    case 101 => Redirectcmd
    case 102 => Calltimeofday
    case 103 => Forcedemoframe
    case 104 => Findmap
    case 105 => Listmaps
    case _ => Findmapname
  }

  /** The ids bound to PF_Fixme. */
  const FIXME_IDS: set<int> := {0, 5, 33, 39, 42, 48, 50, 65, 66, 71}

  /** PF_Fixme is bound at exactly the ids of FIXME_IDS. */
  lemma FixmeExactlyAt(id: int)
    requires 0 <= id < NUM_BUILTINS
    ensures Builtin(id) == Fixme <==> id in FIXME_IDS
  {
  }

  /** Calling builtin id: PF_Fixme raises its run error, any other entry is the bound native function. */
  function Dispatch(id: int): (r: Result<Native>)
    requires 0 <= id < NUM_BUILTINS
    ensures r.Ok? ==> r.value == Builtin(id) && r.value != Fixme
  {
    if Builtin(id) == Fixme then Err(RunError("unimplemented bulitin")) else Ok(Builtin(id))
  }

  /** A call fails exactly at the PF_Fixme ids, always with the same run error. */
  lemma DispatchFails(id: int)
    requires 0 <= id < NUM_BUILTINS
    ensures Dispatch(id).Err? <==> id in FIXME_IDS
    ensures Dispatch(id).Err? ==> Dispatch(id).fault == RunError("unimplemented bulitin")
  {
    FixmeExactlyAt(id);
  }

  /**
   * Three natives are bound twice: precache_model at 20 and 75, precache_sound
   * at 19 and 76 (precache_sound2 and precache_model2 differ only for the
   * compiler), precache_file at 68 and 77.
   */
  lemma DoubleBindings()
    ensures Builtin(20) == Builtin(75) == PrecacheModel
    ensures Builtin(19) == Builtin(76) == PrecacheSound
    ensures Builtin(68) == Builtin(77) == PrecacheFile
  {
  }
}
