/**
 * What `Maybe<T>` promises its callers: elimination by `CaseOf`, the
 * null-collapsing constructor, the functor and monad laws of the two `With`
 * overloads, and absence propagation through the lifts.
 */
module MaybeLaws {
  import opened GoCartMonads

  /** `Just` of a non-null value is present, and `CaseOf` takes its first branch. */
  lemma JustThenCaseOf<T, R>(x: Nullable<T>, f1: T -> R, f2: () -> R)
    requires x.Val?
    ensures Just(x).Ok? && Just(x).value.Present?
    ensures CaseOf(Just(x).value, f1, f2) == f1(x.v)
  {
  }

  /** `Nothing()` is absent, and `CaseOf` takes its second branch whatever `f1` is. */
  lemma NothingThenCaseOf<T, R>(f1: T -> R, f2: () -> R)
    ensures Nothing<T>().Absent?
    ensures CaseOf(Nothing<T>(), f1, f2) == f2()
  {
  }

  /** `CaseOf` with the two constructors rebuilds its input: it is the full eliminator. */
  lemma CaseOfRebuilds<T>(m: Maybe<T>)
    ensures CaseOf(m, (x: T) => Present(x), () => Absent) == m
  {
  }

  /** The map-style `With` on an absent value is absent whatever `f` is. */
  lemma MapAbsent<T, R>(f: T -> Nullable<R>)
    ensures Map(Absent, f) == Absent
  {
  }

  /**
   * The map-style `With` on a present value goes through the public
   * constructor: a null result gives `Nothing()`, any other gives `Just`.
   */
  lemma MapPresent<T, R>(v: T, f: T -> Nullable<R>)
    ensures f(v).Null? ==> Map(Present(v), f) == Nothing()
    ensures f(v).Val? ==> Just(f(v)).Ok? && Map(Present(v), f) == Just(f(v)).value
  {
  }

  /** Functor identity law. */
  lemma MapIdentity<T>(m: Maybe<T>)
    ensures Map(m, (x: T) => Val(x)) == m
  {
  }

  /** Functor composition law, for mapping functions that never return null. */
  lemma MapComposition<T, U, V>(m: Maybe<T>, f: T -> U, g: U -> V)
    ensures Map(Map(m, (x: T) => Val(f(x))), (y: U) => Val(g(y))) == Map(m, (x: T) => Val(g(f(x))))
  {
  }

  /**
   * Composition law for mapping functions that may return null: two maps
   * equal one map with the composite that stops at the first null.
   */
  lemma MapCompositionNullable<T, U, V>(m: Maybe<T>, f: T -> Nullable<U>, g: U -> Nullable<V>)
    ensures Map(Map(m, f), g) == Map(m, (x: T) => match f(x) case Null => Null case Val(u) => g(u))
  {
  }

  /**
   * The plain composition `x => g(f(x))` hands null on to `g`, which two
   * successive maps never do: with `f` returning null and `g` mapping null to
   * a value, the two sides differ.
   */
  lemma MapCompositionBreaksOnNull()
    ensures var f := (x: int) => Null;
            var g := (u: Nullable<int>) => Val(1);
            Map(Map(Present(0), f), (u: int) => g(Val(u))) == Absent &&
            Map(Present(0), (x: int) => g(f(x))) == Present(1)
  {
  }

  /** Monad left identity: binding `Just(v)` applies `f` to `v`. */
  lemma BindLeftIdentity<T, R>(v: T, f: T -> Maybe<R>)
    ensures Just(Val(v)).Ok?
    ensures Bind(Just(Val(v)).value, f) == f(v)
  {
  }

  /** The bind-style `With` on an absent value is absent whatever `f` is. */
  lemma BindAbsent<T, R>(f: T -> Maybe<R>)
    ensures Bind(Absent, f) == Absent
  {
  }

  /** Monad right identity: binding with `Just` gives back the value. */
  lemma BindRightIdentity<T>(m: Maybe<T>)
    ensures Bind(m, (x: T) => Just(Val(x)).value) == m
  {
  }

  /** Monad associativity. */
  lemma BindAssociativity<T, U, V>(m: Maybe<T>, f: T -> Maybe<U>, g: U -> Maybe<V>)
    ensures Bind(Bind(m, f), g) == Bind(m, (x: T) => Bind(f(x), g))
  {
  }

  /** The one-argument `FMap` is the map-style `With`. */
  lemma FMapIsMap<A, R>(f: A -> Nullable<R>, o: Maybe<A>)
    ensures FMap(f, o) == Map(o, f)
  {
  }

  /** The two-argument `FMap` carries `t2 => f(a, t2)` when `o` holds `a`. */
  lemma FMap2Curries<A, B, R>(f: (A, B) -> Nullable<R>, o: Maybe<A>, b: B)
    requires o.Present?
    ensures FMap2(f, o).Present? && FMap2(f, o).value(b) == f(o.value, b)
  {
  }

  /** With a function that never returns null, `LiftM2` is present iff both inputs are. */
  lemma LiftM2PresentIff<A, B, R>(o1: Maybe<A>, o2: Maybe<B>, f: (A, B) -> Nullable<R>)
    requires forall a, b :: f(a, b).Val?
    ensures LiftM2(o1, o2, f).Present? <==> o1.Present? && o2.Present?
  {
  }

  /** An absent first input makes `LiftM2` absent for every `f`: `f` is never consulted. */
  lemma LiftM2IgnoresF<A, B, R>(o1: Maybe<A>, o2: Maybe<B>, f: (A, B) -> Nullable<R>, g: (A, B) -> Nullable<R>)
    requires o1.Absent?
    ensures LiftM2(o1, o2, f) == LiftM2(o1, o2, g) == Absent
  {
  }

  /** With a function that never returns null, `LiftM3` is present iff all three inputs are. */
  lemma LiftM3PresentIff<A, B, C, R>(o1: Maybe<A>, o2: Maybe<B>, o3: Maybe<C>, f: (A, B, C) -> Nullable<R>)
    requires forall a, b, c :: f(a, b, c).Val?
    ensures LiftM3(o1, o2, o3, f).Present? <==> o1.Present? && o2.Present? && o3.Present?
  {
  }

  /** With a function that never returns null, `LiftM4` is present iff all four inputs are. */
  lemma LiftM4PresentIff<A, B, C, D, R>(o1: Maybe<A>, o2: Maybe<B>, o3: Maybe<C>, o4: Maybe<D>,
                                        f: (A, B, C, D) -> Nullable<R>)
    requires forall a, b, c, d :: f(a, b, c, d).Val?
    ensures LiftM4(o1, o2, o3, o4, f).Present? <==> o1.Present? && o2.Present? && o3.Present? && o4.Present?
  {
  }

  /** The worked scenario: adding 3 and 4, an absent operand, and doubling 3. */
  lemma AdditionScenario()
    ensures LiftM2(Present(3), Present(4), (x: int, y: int) => Val(x + y)) == Present(7)
    ensures LiftM2(Present(3), Nothing<int>(), (x: int, y: int) => Val(x + y)) == Absent
    ensures LiftM2(Nothing<int>(), Present(2), (x: int, y: int) => Val(x + y)) == Absent
    ensures LiftM3(Present(1), Present(2), Nothing<int>(), (x: int, y: int, z: int) => Val(x + y + z)) == Absent
    ensures CaseOf(Map(Present(3), (x: int) => Val(x * 2)), (x: int) => x, () => -1) == 6
  {
  }
}
