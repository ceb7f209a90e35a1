# GoCartMonads `Maybe<T>` in Dafny

A model of the `Maybe<T>` struct of GoCartMonads (`GoCartMonads/GoCartMonads/Maybe.cs`), an
immutable optional value with these operations:

- construction: the public constructor, `Just` and `Nothing`;
- callback dispatch: the two `Do` overloads;
- map and bind: the two `With` overloads;
- elimination: `CaseOf`;
- the static lifts: `FMap` (both overloads), `LiftM2`, `LiftM3` and `LiftM4`.

The model has three modules, one per file:

- `GoCartMonads` (`maybe.dfy`) holds the data types and one function per operation of the struct.
- `MaybeLaws` (`maybe_laws.dfy`) holds what the struct promises its callers. That covers
  elimination, the null-collapsing constructor, the functor and monad laws, and absence
  propagation through the lifts.
- `LiftScheme` (`lift_scheme.dfy`) models the construction that `LiftM3` and `LiftM4` share, at
  any arity. It proves by induction that this construction equals the direct n-ary lift, and it
  ties `LiftM2`, `LiftM3` and `LiftM4` to it.

How C# is represented:

- **Null.** A type parameter `T` stands for the non-null values of a C# type. A C# value that may
  be `null` is a `Nullable<T>` (`Null` or `Val(v)`). So a C# `Func<T, TResult>` becomes
  `T -> Nullable<R>`. For non-nullable C# value types every such value is a `Val`, and the null
  checks never fire. A `System.Nullable<U>` such as `int?` can be null, so it too is a `Nullable`.
- **The struct.** Its readonly fields `_isNothing` and `_value` become the two constructors of
  `datatype Maybe<T> = Absent | Present(value: T)`. A present payload is never null, and no
  operation changes a value in place.
- **The public constructor** (`New`) maps `Null` to `Absent`. The map-style `With` re-wraps
  through it, so a mapping function that returns null yields an absent value.
- **`Just`** returns `Result<Maybe<T>>`. A null input gives
  `Err(ArgumentException("input cannot be null", "input"))`.
- **The two `With` overloads** are named `Map` (the result is re-wrapped) and `Bind` (the
  function's own `Maybe` is returned). The lifts use them as C# overload resolution picks them:
  - `LiftM2` is a bind over `o1` whose body maps over `o2`.
  - `LiftM3` and `LiftM4` bind over the curried delegate, and the body maps it over the last input.
  - The two-argument `FMap` names its type argument, which selects the map overload.
- **The two `Do` overloads** are named `Do` and `DoElse`. Each returns the sequence of callbacks
  it invokes (`CallF(payload)` or `CallAction`). That sequence is how the model states "exactly
  once" and "exactly one of the two".

A mapping function may return null. The map-style `With` re-wraps its result through the public
constructor, which turns null into an absent value (`Maybe.cs:41`, `Maybe.cs:10`). `Map` does the
same (`MaybeLaws.MapPresent`).

## Model

| member | source | states |
|---|---|---|
| GoCartMonads.New | GoCartMonads/GoCartMonads/Maybe.cs:7-11 | the result is absent exactly when the payload is null; otherwise it is present and holds the payload |
| GoCartMonads.Nothing | GoCartMonads/GoCartMonads/Maybe.cs:50-53 | the result is absent, for any payload type |
| GoCartMonads.Just | GoCartMonads/GoCartMonads/Maybe.cs:55-59 | fails exactly when the input is null, with ArgumentException("input cannot be null", "input"); otherwise the result is present and holds the input |
| GoCartMonads.Do | GoCartMonads/GoCartMonads/Maybe.cs:22-26 | `f` is invoked exactly once iff the value is present, and only with the payload; nothing else is invoked |
| GoCartMonads.DoElse | GoCartMonads/GoCartMonads/Maybe.cs:28-36 | exactly one callback is invoked, exactly once: `action` iff the value is absent, otherwise `f` with the payload |
| GoCartMonads.Map | GoCartMonads/GoCartMonads/Maybe.cs:38-42 | the result is present iff the input is present and `f` of the payload is non-null, and it then holds that result |
| GoCartMonads.Bind | GoCartMonads/GoCartMonads/Maybe.cs:44-48 | absent input gives absent; a present input gives `f(payload)` unchanged |
| GoCartMonads.CaseOf | GoCartMonads/GoCartMonads/Maybe.cs:61-65 | the result is `f1(payload)` when present and `f2()` when absent |
| GoCartMonads.FMap2 | GoCartMonads/GoCartMonads/Maybe.cs:67-70 | the result is present iff `o` is present (the curried delegate is never null) |
| GoCartMonads.FMap | GoCartMonads/GoCartMonads/Maybe.cs:72-75 | the result is present iff `o` is present and `f` of its payload is non-null, and it then holds that result |
| GoCartMonads.LiftM2 | GoCartMonads/GoCartMonads/Maybe.cs:77-81 | with both inputs present, the result is the public constructor applied to `f(a, b)`; with either absent, it is absent |
| GoCartMonads.LiftM3 | GoCartMonads/GoCartMonads/Maybe.cs:83-88 | the curried construction equals the direct lift: the constructor applied to `f(a, b, c)` when all three are present, absent when any is absent |
| GoCartMonads.LiftM4 | GoCartMonads/GoCartMonads/Maybe.cs:90-95 | the curried construction equals the direct lift: the constructor applied to `f(a, b, c, d)` when all four are present, absent when any is absent |
| MaybeLaws.JustThenCaseOf | GoCartMonads/GoCartMonads/Maybe.cs:55-65 | `Just` of a non-null value succeeds with a present value, and `CaseOf` on it returns `f1(v)` |
| MaybeLaws.NothingThenCaseOf | GoCartMonads/GoCartMonads/Maybe.cs:50-65 | `Nothing()` is absent, and `CaseOf` on it returns `f2()` whatever `f1` is |
| MaybeLaws.CaseOfRebuilds | GoCartMonads/GoCartMonads/Maybe.cs:61-65 | `CaseOf` with the two constructors as branches gives back its input, so it distinguishes every value |
| MaybeLaws.MapAbsent | GoCartMonads/GoCartMonads/Maybe.cs:38-40 | the map-style `With` on an absent value is absent for every `f` |
| MaybeLaws.MapPresent | GoCartMonads/GoCartMonads/Maybe.cs:38-42 | on a present `v`, the map-style `With` returns `Nothing()` when `f(v)` is null and `Just(f(v))` otherwise |
| MaybeLaws.MapIdentity | GoCartMonads/GoCartMonads/Maybe.cs:38-42 | functor identity law: mapping the identity gives back the value |
| MaybeLaws.MapComposition | GoCartMonads/GoCartMonads/Maybe.cs:38-42 | functor composition law for mapping functions that never return null |
| MaybeLaws.MapCompositionNullable | GoCartMonads/GoCartMonads/Maybe.cs:38-42 | two maps equal one map with the composite that stops at the first null |
| MaybeLaws.MapCompositionBreaksOnNull | GoCartMonads/GoCartMonads/Maybe.cs:38-42 | a concrete case where the plain composite `x => g(f(x))` differs from two maps, because `f` returns null and `g` maps null to a value |
| MaybeLaws.BindLeftIdentity | GoCartMonads/GoCartMonads/Maybe.cs:44-59 | monad left identity: binding `Just(v)` with `f` gives `f(v)` |
| MaybeLaws.BindAbsent | GoCartMonads/GoCartMonads/Maybe.cs:44-46 | the bind-style `With` on an absent value is absent for every `f` |
| MaybeLaws.BindRightIdentity | GoCartMonads/GoCartMonads/Maybe.cs:44-59 | monad right identity: binding with `Just` gives back the value |
| MaybeLaws.BindAssociativity | GoCartMonads/GoCartMonads/Maybe.cs:44-48 | monad associativity of the bind-style `With` |
| MaybeLaws.FMapIsMap | GoCartMonads/GoCartMonads/Maybe.cs:72-75 | the one-argument `FMap` equals the map-style `With` |
| MaybeLaws.FMap2Curries | GoCartMonads/GoCartMonads/Maybe.cs:67-70 | when `o` holds `a`, the two-argument `FMap` holds a delegate that maps every `b` to `f(a, b)` |
| MaybeLaws.LiftM2PresentIff | GoCartMonads/GoCartMonads/Maybe.cs:77-81 | with an `f` that never returns null, `LiftM2` is present iff both inputs are present |
| MaybeLaws.LiftM2IgnoresF | GoCartMonads/GoCartMonads/Maybe.cs:77-81 | with an absent first input, `LiftM2` is absent and does not depend on `f` |
| MaybeLaws.LiftM3PresentIff | GoCartMonads/GoCartMonads/Maybe.cs:83-88 | with an `f` that never returns null, `LiftM3` is present iff all three inputs are present |
| MaybeLaws.LiftM4PresentIff | GoCartMonads/GoCartMonads/Maybe.cs:90-95 | with an `f` that never returns null, `LiftM4` is present iff all four inputs are present |
| MaybeLaws.AdditionScenario | GoCartMonads/GoCartMonads/Maybe.cs:61-88 | `LiftM2` adds 3 and 4 to a present 7; an absent operand of `LiftM2` or `LiftM3` gives absent; doubling 3 and eliminating gives 6 |
| LiftScheme.LiftN | GoCartMonads/GoCartMonads/Maybe.cs:86-94 | the curried construction of `LiftM3` and `LiftM4` at every arity (lift all but the last input, then bind over the delegate and map it over the last); a present result needs every input present |
| LiftScheme.LiftNAgrees | GoCartMonads/GoCartMonads/Maybe.cs:83-95 | the curried construction (lift all but the last input, then bind and map over the last) equals the direct n-ary lift at every arity |
| LiftScheme.LiftNAbsent | GoCartMonads/GoCartMonads/Maybe.cs:83-95 | one absent input, at any position, makes the n-ary lift absent |
| LiftScheme.LiftNPresentIff | GoCartMonads/GoCartMonads/Maybe.cs:83-95 | with an `f` that never returns null, the n-ary lift is present iff every input is present |
| LiftScheme.LiftM2IsLiftN | GoCartMonads/GoCartMonads/Maybe.cs:77-81 | `LiftM2` over inputs of one type equals the n-ary curried lift over two inputs |
| LiftScheme.LiftM3IsLiftN | GoCartMonads/GoCartMonads/Maybe.cs:83-88 | `LiftM3` over inputs of one type equals the n-ary curried lift over three inputs |
| LiftScheme.LiftM4IsLiftN | GoCartMonads/GoCartMonads/Maybe.cs:90-95 | `LiftM4` over inputs of one type equals the n-ary curried lift over four inputs |

## Left out

- The zero value `default(Maybe<T>)` is not modelled. It has `_isNothing` false and a default, possibly null, payload, and no operation of the struct produces it. Every value in the model is built by an operation, so a present payload is never null.
- The private constructor `Maybe(bool, T)` (`Maybe.cs:16-20`) is used only by `Nothing`. It is folded into `Nothing`, and the default payload that it stores for an absent value is not modelled.
- The exception mechanism is not modelled. `Just` returns an `Err` value instead of throwing, and nothing models how the exception propagates.
- What the callbacks of `Do` do is not modelled. The model records only which callback fires, and with what argument.
- GoCartMonads.CaseOf: states the result only. Unlike `Do` and `DoElse`, it keeps no log of the callbacks it invokes, so not calling `f2` on a present value (and `f1` on an absent one) is stated only as the result not depending on the other branch. `LiftM2` never applying `f` when `o1` is absent is likewise stated only as the result not depending on `f` (`MaybeLaws.LiftM2IgnoresF`).
- Callbacks are non-null and do not throw. A null delegate throws NullReferenceException, but only on the branch that calls it: `Do(null)` or `CaseOf(null, f2)` on a present value, `LiftM2(o1, o2, null)` with both inputs present (`Maybe.cs:25`, `Maybe.cs:64`, `Maybe.cs:80`). That error, and exceptions raised inside callbacks that propagate out of every operation, are not modelled: every delegate is a total Dafny function.
- C# overload resolution and method-group conversion are not modelled. The model gives the overload each call resolves to a name of its own.
- Generic variance, boxing and reflection are not modelled. Nothing in the struct depends on them.
- LiftScheme: the n-ary lift takes inputs of one payload type. It is tied to `LiftM2`, `LiftM3` and `LiftM4` only when their inputs share a type. The mixed-type versions are stated directly in the contracts of `GoCartMonads.LiftM3` and `GoCartMonads.LiftM4`.
