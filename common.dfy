// Shared vocabulary of the builtin bridge: script strings, the two fault
// severities, and the bounded C string copies the builtins are built from.
module Common {

  /** Slots of svs.clients; entity numbers 1..MAX_CLIENTS are the clients. */
  const MAX_CLIENTS: nat := 32

  const NUL: char := '\0'

  /** A script string is modelled by its bytes before the terminating NUL. */
  predicate NoNul(s: string) {
    NUL !in s
  }

  /** Entity numbers that name a client slot. */
  predicate IsClientNum(entnum: int) {
    1 <= entnum <= MAX_CLIENTS
  }

  /** The two error severities. A fault never returns to the builtin. */
  datatype Fault =
    | RunError(msg: string)     // PR_RunError: aborts the running script call chain
    | ServerError(msg: string)  // SV_Error / Sys_Error: brings the server down

  datatype Option<T> = None | Some(value: T)

  datatype Result<T> = Ok(value: T) | Err(fault: Fault)

  datatype Outcome = Pass | Fail(fault: Fault)

  /** The first n bytes of s, or all of s when it is shorter: what a bounded copy keeps. */
  function Truncate(s: string, n: nat): (r: string)
    ensures |r| == if |s| <= n then |s| else n
    ensures r == s[..|r|]
  {
    if |s| <= n then s else s[..n]
  }

  /** strlcat(dst, src, size) on a dst that fits: the concatenation cut to size - 1 bytes. */
  function StrlCat(dst: string, src: string, size: nat): (r: string)
    requires |dst| < size
    ensures |r| < size && |r| <= |dst| + |src|
    ensures r == (dst + src)[..|r|]
    ensures |dst| + |src| < size ==> r == dst + src
    ensures |dst| + |src| >= size ==> |r| == size - 1
  {
    Truncate(dst + src, size - 1)
  }

  /** Cutting twice to the same bound is cutting the whole concatenation once. */
  lemma TruncateAppend(a: string, b: string, n: nat)
    ensures Truncate(Truncate(a, n) + b, n) == Truncate(a + b, n)
  {
    if |a| > n {
      assert (a[..n] + b)[..n] == a[..n] == (a + b)[..n];
    }
  }

  /** Prefix equality that strncmp(a, b, n) == 0 decides on NUL-terminated strings. */
  predicate StrNEqual(a: string, b: string, n: nat) {
    Truncate(a + [NUL], n) == Truncate(b + [NUL], n)
  }

  /** When a is shorter than the bound, strncmp equality is plain string equality. */
  lemma {:induction false} StrNEqualExact(a: string, b: string, n: nat)
    requires NoNul(a) && NoNul(b) && |a| < n
    ensures StrNEqual(a, b, n) <==> a == b
  {
    if StrNEqual(a, b, n) {
      assert Truncate(a + [NUL], n) == a + [NUL];
      var t := Truncate(b + [NUL], n);
      assert t == a + [NUL] && t == (b + [NUL])[..|t|];
      assert (b + [NUL])[|a|] == NUL;
      assert a == (b + [NUL])[..|a|] == b;
    }
  }
}
