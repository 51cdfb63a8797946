// The selection builtins: nextent and find scan the edicts forward from an
// entity, newcheckclient cycles through the client numbers, and min and max
// pick an extreme of their arguments.
module Selectors {
  import opened Common

  /**
   * PF_nextent: the first entity after e that is not free, or 0 (the world)
   * when every later entity is free. free[j] is edict j's free flag and |free|
   * is sv.num_edicts; e must be an existing entity, as the loop stops only at
   * num_edicts.
   */
  method NextEnt(e: nat, free: seq<bool>) returns (r: nat)
    requires e < |free|
    ensures r == 0 <==> forall j :: e < j < |free| ==> free[j]
    ensures r != 0 ==> e < r < |free| && !free[r]
    ensures r != 0 ==> forall j :: e < j < r ==> free[j]
  {
    var i := e;
    while true
      invariant e <= i < |free|
      invariant forall j :: e < j <= i ==> free[j]
      decreases |free| - i
    {
      i := i + 1;
      if i == |free| {
        return 0;
      }
      if !free[i] {
        return i;
      }
    }
  }

  /**
   * PF_Find: the first entity after e that is not free and whose string field
   * equals s, or 0 when there is none. field[j] is the field of edict j, None for
   * a NULL string; a NULL search string is a run error.
   */
  method Find(e: nat, s: Option<string>, free: seq<bool>, field: seq<Option<string>>) returns (r: Result<nat>)
    requires |field| == |free|
    ensures s.None? <==> r.Err?
    ensures r.Err? ==> r.fault == RunError("PF_Find: bad search string")
    ensures r.Ok? && r.value != 0 ==> e < r.value < |free| && !free[r.value] && field[r.value] == s
    ensures r.Ok? ==> forall j :: e < j < |free| && (r.value == 0 || j < r.value) ==> free[j] || field[j] != s
  {
    if s.None? {
      return Err(RunError("PF_Find: bad search string"));
    }
    var i := e + 1;
    while i < |free|
      invariant e < i
      invariant forall j :: e < j < i && j < |free| ==> free[j] || field[j] != s
    {
      if !free[i] && field[i].Some? && field[i] == s {
        return Ok(i);
      }
      i := i + 1;
    }
    return Ok(0);
  }

  /** PF_newcheckclient's clamp of the previous check into 1..MAX_CLIENTS. */
  function ClampClient(check: int): (c: int)
    ensures IsClientNum(c)
    ensures IsClientNum(check) ==> c == check
  {
    if check < 1 then 1 else if check > MAX_CLIENTS then MAX_CLIENTS else check
  }

  /** The client number m steps after c in the cycle 1, 2, ..., MAX_CLIENTS, 1, ... */
  function CycleAt(c: int, m: int): (i: int)
    ensures IsClientNum(i)
  {
    (c - 1 + m) % MAX_CLIENTS + 1
  }

  /** How many steps after c the cycle reaches i: 1..MAX_CLIENTS, MAX_CLIENTS for i == c. */
  function Steps(c: int, i: int): (m: int)
    ensures 1 <= m <= MAX_CLIENTS
  {
    (i - c + MAX_CLIENTS - 1) % MAX_CLIENTS + 1
  }

  /** The cycle visits every other client exactly once before it comes back to c. */
  lemma CycleSteps(c: int, m: int)
    requires IsClientNum(c) && 1 <= m <= MAX_CLIENTS
    ensures Steps(c, CycleAt(c, m)) == m
    ensures CycleAt(c, m) == c <==> m == MAX_CLIENTS
  {
    var q := c - 1 + m;
    if q < MAX_CLIENTS {
      assert CycleAt(c, m) == c + m;
    } else {
      assert CycleAt(c, m) == c + m - MAX_CLIENTS;
    }
  }

  /** One more step moves to the next client number, wrapping from MAX_CLIENTS to 1. */
  lemma CycleNext(c: int, m: int)
    requires IsClientNum(c) && 1 <= m
    ensures CycleAt(c, m + 1) == if CycleAt(c, m) == MAX_CLIENTS then 1 else CycleAt(c, m) + 1
  {
    var q := (c - 1 + m) % MAX_CLIENTS;
    var d := (c - 1 + m) / MAX_CLIENTS;
    assert c - 1 + m == d * MAX_CLIENTS + q;
    if q == MAX_CLIENTS - 1 {
      assert c - 1 + m + 1 == (d + 1) * MAX_CLIENTS + 0;
    } else {
      assert c - 1 + m + 1 == d * MAX_CLIENTS + (q + 1);
    }
  }

  /**
   * The cycling part of PF_newcheckclient: from the clamped check c, the first
   * client number after c (cyclically) whose entity is eligible, or c itself
   * when no other one is. eligible[i] stands for edict i being in use, alive
   * and not FL_NOTARGET.
   */
  method NewCheckClient(check: int, eligible: seq<bool>) returns (r: int)
    requires |eligible| == MAX_CLIENTS + 1
    ensures IsClientNum(r)
    ensures r == ClampClient(check) || eligible[r]
    ensures forall m :: 1 <= m < Steps(ClampClient(check), r) ==> !eligible[CycleAt(ClampClient(check), m)]
  {
    var c := check;
    if c < 1 {
      c := 1;
    }
    if c > MAX_CLIENTS {
      c := MAX_CLIENTS;
    }
    var i := if c == MAX_CLIENTS then 1 else c + 1;
    ghost var k := 1;
    while true
      invariant 1 <= k <= MAX_CLIENTS && 1 <= i <= MAX_CLIENTS + 1
      invariant (if i == MAX_CLIENTS + 1 then 1 else i) == CycleAt(c, k)
      invariant forall m :: 1 <= m < k ==> !eligible[CycleAt(c, m)]
      decreases MAX_CLIENTS - k
    {
      if i == MAX_CLIENTS + 1 {
        i := 1;
      }
      CycleSteps(c, k);
      if i == c {
        break;
      }
      if eligible[i] {
        break;
      }
      CycleNext(c, k);
      i := i + 1;
      k := k + 1;
    }
    CycleSteps(c, k);
    r := i;
  }

  /** When some other client is eligible, newcheckclient moves off the previous check. */
  lemma NewCheckMoves(c: int, eligible: seq<bool>, r: int, other: int)
    requires |eligible| == MAX_CLIENTS + 1 && IsClientNum(c) && IsClientNum(other) && other != c && eligible[other]
    requires IsClientNum(r) && (r == c || eligible[r])
    requires forall m :: 1 <= m < Steps(c, r) ==> !eligible[CycleAt(c, m)]
    ensures r != c && eligible[r]
  {
    var m := Steps(c, other);
    assert CycleAt(c, m) == other by {
      var q := (other - c + MAX_CLIENTS - 1) % MAX_CLIENTS;
      assert 0 <= q < MAX_CLIENTS;
      if other > c {
        assert q == other - c - 1;
      } else {
        assert q == other - c + MAX_CLIENTS - 1;
      }
    }
    CycleSteps(c, m);
  }

  const MIN_ARGC_MESSAGE: string := "min: must supply at least 2 floats\n"
  const MAX_ARGC_MESSAGE: string := "max: must supply at least 2 floats\n"

  /** PF_min: the smallest argument; fewer than two arguments stop the server. */
  method Min(args: seq<real>) returns (r: Result<real>)
    ensures r.Ok? <==> |args| >= 2
    ensures r.Err? ==> r.fault == ServerError(MIN_ARGC_MESSAGE)
    ensures r.Ok? ==> r.value in args && forall x :: x in args ==> r.value <= x
  {
    if |args| == 2 {
      return Ok(if args[0] < args[1] then args[0] else args[1]);
    } else if |args| >= 3 {
      var f := args[0];
      var i := 1;
      while i < |args|
        invariant 1 <= i <= |args|
        invariant f in args[..i] && forall j :: 0 <= j < i ==> f <= args[j]
      {
        if args[i] < f {
          f := args[i];
        }
        i := i + 1;
      }
      assert args[..i] == args;
      return Ok(f);
    } else {
      return Err(ServerError(MIN_ARGC_MESSAGE));
    }
  }

  /** PF_max: the largest argument; fewer than two arguments stop the server. */
  method Max(args: seq<real>) returns (r: Result<real>)
    ensures r.Ok? <==> |args| >= 2
    ensures r.Err? ==> r.fault == ServerError(MAX_ARGC_MESSAGE)
    ensures r.Ok? ==> r.value in args && forall x :: x in args ==> r.value >= x
  {
    if |args| == 2 {
      return Ok(if args[0] > args[1] then args[0] else args[1]);
    } else if |args| >= 3 {
      var f := args[0];
      var i := 1;
      while i < |args|
        invariant 1 <= i <= |args|
        invariant f in args[..i] && forall j :: 0 <= j < i ==> f >= args[j]
      {
        if args[i] > f {
          f := args[i];
        }
        i := i + 1;
      }
      assert args[..i] == args;
      return Ok(f);
    } else {
      return Err(ServerError(MAX_ARGC_MESSAGE));
    }
  }
}
