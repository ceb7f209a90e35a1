/**
 * The construction `LiftM3` and `LiftM4` share, at every arity: lift all but
 * the last input with a function curried in the last argument, then bind over
 * the resulting delegate and map it over the last input. Inputs here share one
 * payload type, so that any number of them fits in a sequence.
 */
module LiftScheme {
  import opened GoCartMonads

  /** Every input is present. */
  predicate AllPresent<T>(os: seq<Maybe<T>>) {
    forall i :: 0 <= i < |os| ==> os[i].Present?
  }

  /** The payloads of inputs that are all present, in order. */
  function Values<T>(os: seq<Maybe<T>>): (vs: seq<T>)
    requires AllPresent(os)
    ensures |vs| == |os|
    ensures forall i :: 0 <= i < |os| ==> vs[i] == os[i].value
  {
    if |os| == 0 then [] else Values(os[..|os| - 1]) + [os[|os| - 1].value]
  }

  /**
   * The curried lift over `|os|` inputs, one argument at a time: with no
   * inputs, the public constructor applied to `f([])`. A present result
   * needs every input present.
   */
  function LiftN<T, R>(os: seq<Maybe<T>>, f: seq<T> -> Nullable<R>): (r: Maybe<R>)
    ensures r.Present? ==> AllPresent(os)
    decreases |os|
  {
    if |os| == 0 then New(f([]))
    else
      var maybeFunc := LiftN(os[..|os| - 1], (xs: seq<T>) => Val((x: T) => f(xs + [x])));
      Bind(maybeFunc, (g: T -> Nullable<R>) => Map(os[|os| - 1], g))
  }

  /**
   * The curried lift is the direct n-ary lift: the public constructor applied
   * to `f` of all payloads when every input is present, absent otherwise.
   */
  lemma {:induction false} LiftNAgrees<T, R>(os: seq<Maybe<T>>, f: seq<T> -> Nullable<R>)
    ensures LiftN(os, f) == if AllPresent(os) then New(f(Values(os))) else Absent
    decreases |os|
  {
    if |os| > 0 {
      LiftNAgrees(os[..|os| - 1], (xs: seq<T>) => Val((x: T) => f(xs + [x])));
    }
  }

  /** Absence is infectious: one absent input makes the lift absent, whichever it is. */
  lemma LiftNAbsent<T, R>(os: seq<Maybe<T>>, f: seq<T> -> Nullable<R>, i: nat)
    requires i < |os| && os[i].Absent?
    ensures LiftN(os, f) == Absent
  {
    LiftNAgrees(os, f);
  }

  /** With a function that never returns null, the lift is present iff every input is. */
  lemma LiftNPresentIff<T, R>(os: seq<Maybe<T>>, f: seq<T> -> Nullable<R>)
    requires forall xs :: f(xs).Val?
    ensures LiftN(os, f).Present? <==> AllPresent(os)
  {
    LiftNAgrees(os, f);
  }

  /** `LiftM2` over inputs of one type is the curried lift over two inputs. */
  lemma LiftM2IsLiftN<T, R>(o1: Maybe<T>, o2: Maybe<T>, f: (T, T) -> Nullable<R>)
    ensures LiftM2(o1, o2, f) == LiftN([o1, o2], (xs: seq<T>) => if |xs| == 2 then f(xs[0], xs[1]) else Null)
  {
    LiftNAgrees([o1, o2], (xs: seq<T>) => if |xs| == 2 then f(xs[0], xs[1]) else Null);
    if o1.Present? && o2.Present? {
      assert Values([o1, o2]) == [o1.value, o2.value];
    }
  }

  /** `LiftM3` over inputs of one type is the curried lift over three inputs. */
  lemma LiftM3IsLiftN<T, R>(o1: Maybe<T>, o2: Maybe<T>, o3: Maybe<T>, f: (T, T, T) -> Nullable<R>)
    ensures LiftM3(o1, o2, o3, f)
         == LiftN([o1, o2, o3], (xs: seq<T>) => if |xs| == 3 then f(xs[0], xs[1], xs[2]) else Null)
  {
    LiftNAgrees([o1, o2, o3], (xs: seq<T>) => if |xs| == 3 then f(xs[0], xs[1], xs[2]) else Null);
    if o1.Present? && o2.Present? && o3.Present? {
      assert Values([o1, o2, o3]) == [o1.value, o2.value, o3.value];
    }
  }

  /** `LiftM4` over inputs of one type is the curried lift over four inputs. */
  lemma LiftM4IsLiftN<T, R>(o1: Maybe<T>, o2: Maybe<T>, o3: Maybe<T>, o4: Maybe<T>, f: (T, T, T, T) -> Nullable<R>)
    ensures LiftM4(o1, o2, o3, o4, f)
         == LiftN([o1, o2, o3, o4], (xs: seq<T>) => if |xs| == 4 then f(xs[0], xs[1], xs[2], xs[3]) else Null)
  {
    LiftNAgrees([o1, o2, o3, o4], (xs: seq<T>) => if |xs| == 4 then f(xs[0], xs[1], xs[2], xs[3]) else Null);
    if o1.Present? && o2.Present? && o3.Present? && o4.Present? {
      assert Values([o1, o2, o3, o4]) == [o1.value, o2.value, o3.value, o4.value];
    }
  }
}
