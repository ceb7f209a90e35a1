/**
 * The `Maybe<T>` optional-value struct of GoCartMonads, modelled as values.
 *
 * C# lets any reference-typed value be `null`. The model separates the two:
 * a type parameter `T` stands for the non-null values of the C# type, and a
 * C# value that may be null is a `Nullable<T>`. A function the source receives
 * as `Func<T, TResult>` is modelled as `T -> Nullable<R>`, because such a
 * function may return `null` and the struct reacts to that. The struct's two
 * readonly fields `_isNothing` and `_value` become the two constructors of
 * `Maybe<T>`; a present payload is never null.
 */
module GoCartMonads {

  /** A C# value of a type that admits `null`. */
  datatype Nullable<T> = Null | Val(v: T)

  /** The `Maybe<T>` struct: `_isNothing` set, or a present non-null `_value`. */
  datatype Maybe<T> = Absent | Present(value: T)

  /** The exception that `Just` throws, with its message and parameter name. */
  datatype Error = ArgumentException(message: string, paramName: string)

  /** Either a value or the exception its computation throws. */
  datatype Result<T> = Ok(value: T) | Err(error: Error)

  /**
   * The public constructor `new Maybe<T>(value)`: a null payload gives a value
   * whose `_isNothing` flag is set; any other payload is present.
   */
  function New<T>(x: Nullable<T>): (r: Maybe<T>)
    ensures r.Absent? <==> x.Null?
    ensures x.Val? ==> r.value == x.v
  {
    match x
    case Null => Absent
    case Val(v) => Present(v)
  }

  /** `Maybe<T>.Nothing<TResult>()`: the absent value of any payload type. */
  function Nothing<R>(): (r: Maybe<R>)
    ensures !r.Present?
  {
    Absent
  }

  /**
   * `Maybe<T>.Just(input)`: a present value, or the `ArgumentException`
   * ("input cannot be null", parameter "input") when `input` is null.
   */
  function Just<T>(x: Nullable<T>): (r: Result<Maybe<T>>)
    ensures r.Err? <==> x.Null?
    ensures r.Err? ==> r.error == ArgumentException("input cannot be null", "input")
    ensures r.Ok? ==> r.value.Present? && r.value.value == x.v
  {
    match x
    case Null => Err(ArgumentException("input cannot be null", "input"))
    case Val(_) => Ok(New(x))
  }

  /** A callback that `Do` invokes: the payload callback `f`, or `action`. */
  datatype Invocation<T> = CallF(arg: T) | CallAction

  /**
   * `Do(f)`: the callbacks it invokes, in order. `f` is invoked exactly once,
   * with the payload, when the value is present, and nothing is invoked
   * otherwise. What the callback itself does is not modelled.
   */
  function Do<T>(m: Maybe<T>): (calls: seq<Invocation<T>>)
    ensures |calls| == 1 <==> m.Present?
    ensures |calls| <= 1
    ensures forall c :: c in calls ==> c.CallF? && c.arg == m.value
  {
    if m.Absent? then [] else [CallF(m.value)]
  }

  /**
   * `Do(f, action)`: the callbacks it invokes, in order. Exactly one callback
   * is invoked: `action` when the value is absent, `f` with the payload when
   * it is present.
   */
  function DoElse<T>(m: Maybe<T>): (calls: seq<Invocation<T>>)
    ensures |calls| == 1
    ensures calls[0].CallAction? <==> m.Absent?
    ensures calls[0].CallF? ==> calls[0].arg == m.value
  {
    if m.Absent? then [CallAction] else [CallF(m.value)]
  }

  /**
   * `With(Func<T, TResult> f)`, the map overload: absent stays absent, and a
   * present payload is mapped and re-wrapped through the public constructor,
   * so a mapping function that returns null yields an absent value.
   */
  function Map<T, R>(m: Maybe<T>, f: T -> Nullable<R>): (r: Maybe<R>)
    ensures r.Present? <==> m.Present? && f(m.value).Val?
    ensures r.Present? ==> r.value == f(m.value).v
  {
    if m.Absent? then Nothing() else New(f(m.value))
  }

  /**
   * `With(Func<T, Maybe<TResult>> f)`, the bind overload: absent stays
   * absent, and on a present payload the function's own result is returned.
   */
  function Bind<T, R>(m: Maybe<T>, f: T -> Maybe<R>): (r: Maybe<R>)
    ensures m.Absent? ==> r.Absent?
    ensures m.Present? ==> r == f(m.value)
  {
    if m.Absent? then Nothing() else f(m.value)
  }

  /** `CaseOf(f1, f2)`: `f1` of the payload when present, `f2()` when absent. */
  function CaseOf<T, R>(m: Maybe<T>, f1: T -> R, f2: () -> R): (r: R)
    ensures m.Present? ==> r == f1(m.value)
    ensures m.Absent? ==> r == f2()
  {
    if m.Absent? then f2() else f1(m.value)
  }

  /**
   * The two-argument `FMap(f, o)`: maps `o` with `t1 => t2 => f(t1, t2)`.
   * The curried delegate is never null, so the result is present exactly when
   * `o` is, and it then carries `f` with its first argument fixed.
   */
  function FMap2<A, B, R>(f: (A, B) -> Nullable<R>, o: Maybe<A>): (r: Maybe<B -> Nullable<R>>)
    ensures r.Present? <==> o.Present?
  {
    Map(o, (t1: A) => Val((t2: B) => f(t1, t2)))
  }

  /** The one-argument `FMap(f, o)`: `o.With(f)` under the map overload. */
  function FMap<A, R>(f: A -> Nullable<R>, o: Maybe<A>): (r: Maybe<R>)
    ensures r.Present? <==> o.Present? && f(o.value).Val?
    ensures r.Present? ==> r.value == f(o.value).v
  {
    Map(o, f)
  }

  /**
   * `LiftM2(o1, o2, f)`: a bind over `o1` whose body maps over `o2`. The
   * result is the public constructor applied to `f(a, b)` when both inputs
   * are present, and absent otherwise.
   */
  function LiftM2<A, B, R>(o1: Maybe<A>, o2: Maybe<B>, f: (A, B) -> Nullable<R>): (r: Maybe<R>)
    ensures o1.Present? && o2.Present? ==> r == New(f(o1.value, o2.value))
    ensures o1.Absent? || o2.Absent? ==> r.Absent?
  {
    Bind(o1, (t1: A) => Map(o2, (t2: B) => f(t1, t2)))
  }

  /**
   * `LiftM3(o1, o2, o3, f)`: `LiftM2` over the first two inputs with the
   * curried `t3 => f(t1, t2, t3)`, then a bind over that delegate whose body
   * maps it over `o3`. This agrees with the direct three-argument lift.
   */
  function LiftM3<A, B, C, R>(o1: Maybe<A>, o2: Maybe<B>, o3: Maybe<C>, f: (A, B, C) -> Nullable<R>): (r: Maybe<R>)
    ensures o1.Present? && o2.Present? && o3.Present? ==> r == New(f(o1.value, o2.value, o3.value))
    ensures o1.Absent? || o2.Absent? || o3.Absent? ==> r.Absent?
  {
    var maybeFunc := LiftM2(o1, o2, (t1: A, t2: B) => Val((t3: C) => f(t1, t2, t3)));
    Bind(maybeFunc, (g: C -> Nullable<R>) => Map(o3, g))
  }

  /**
   * `LiftM4(o1, o2, o3, o4, f)`: `LiftM3` over the first three inputs with the
   * curried `t4 => f(t1, t2, t3, t4)`, then a bind over that delegate whose
   * body maps it over `o4`. This agrees with the direct four-argument lift.
   */
  function LiftM4<A, B, C, D, R>(o1: Maybe<A>, o2: Maybe<B>, o3: Maybe<C>, o4: Maybe<D>,
                                 f: (A, B, C, D) -> Nullable<R>): (r: Maybe<R>)
    ensures o1.Present? && o2.Present? && o3.Present? && o4.Present? ==>
              r == New(f(o1.value, o2.value, o3.value, o4.value))
    ensures o1.Absent? || o2.Absent? || o3.Absent? || o4.Absent? ==> r.Absent?
  {
    var maybeFunc := LiftM3(o1, o2, o3, (t1: A, t2: B, t3: C) => Val((t4: D) => f(t1, t2, t3, t4)));
    Bind(maybeFunc, (g: D -> Nullable<R>) => Map(o4, g))
  }
}
