/** Value types shared by every component of the model. */
module Basics {

  datatype Option<+T> = None | Some(value: T)

  datatype Result<+T, +E> = Ok(value: T) | Err(error: E)

  type Byte = x: int | 0 <= x < 256 witness 0
  type Bytes = seq<Byte>

  /** Identifiers the program draws from `uuid4`; freshness is modelled by a set of used ones. */
  type Uuid = nat

  /** A SHA-256 hex digest. The hash itself is always a parameter. */
  type Digest = string

  ghost predicate Injective<S(!new), T(!new)>(f: S -> T) {
    forall x, y :: f(x) == f(y) ==> x == y
  }

  function Min(x: int, y: int): int {
    if x <= y then x else y
  }

  function Max(x: int, y: int): int {
    if x >= y then x else y
  }

  function Concat<T>(parts: seq<seq<T>>): seq<T> {
    if parts == [] then [] else parts[0] + Concat(parts[1..])
  }

  lemma {:induction false} ConcatAppends<T>(parts: seq<seq<T>>, i: nat)
    requires i < |parts|
    ensures Concat(parts[..i + 1]) == Concat(parts[..i]) + parts[i]
  {
    if i == 0 {
      assert parts[..1][1..] == [];
    } else {
      ConcatAppends(parts[1..], i - 1);
      assert parts[..i][1..] == parts[1..][..i - 1] && parts[..i + 1][1..] == parts[1..][..i];
    }
  }

  /** A condition for getting further, and the code a call ends with that does not meet it. */
  datatype Hurdle<C> = Hurdle(cleared: bool, code: C)

  ghost predicate AllCleared<C>(hurdles: seq<Hurdle<C>>) {
    forall i :: 0 <= i < |hurdles| ==> hurdles[i].cleared
  }

  ghost predicate FirstMissed<C>(hurdles: seq<Hurdle<C>>, k: nat) {
    k < |hurdles| && !hurdles[k].cleared && forall i :: 0 <= i < k ==> hurdles[i].cleared
  }

  /** Whatever is not cleared as a whole is missed at a first place, and there is only one. */
  lemma SomeIsFirstMissed<C>(hurdles: seq<Hurdle<C>>) returns (k: nat)
    requires !AllCleared(hurdles)
    ensures FirstMissed(hurdles, k) && forall other :: FirstMissed(hurdles, other) ==> other == k
  {
    k := 0;
    while hurdles[k].cleared
      invariant k < |hurdles| && forall i :: 0 <= i < k ==> hurdles[i].cleared
      decreases |hurdles| - k
    {
      k := k + 1;
    }
  }
}
