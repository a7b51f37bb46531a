# Annotation constructor caller of Kotlin reflection, in Dafny

This project models `AnnotationConstructorCaller`, the piece of Kotlin's JVM
reflection that lets a program call an annotation class's constructor through
`KFunction.call`. The JVM cannot instantiate an annotation class, so the caller
does the following:

- refuses a positional call of a Java annotation whose parameters have no
  fixed order (the `init` guard);
- replaces each primitive parameter type by its wrapper class, and each
  `Class` default by its `KClass`;
- in `call`, substitutes defaults for `null` arguments when optional arguments
  are allowed, turns a `KClass` back into its `Class`, refuses a raw `Class`,
  and type-checks each argument against the erased parameter type. It stops
  with an `IllegalArgumentException` at the first bad argument;
- builds the annotation object (`createAnnotationInstance`). That object is a
  proxy with structural `equals`, a cached `hashCode` of the shape the
  `java.lang.annotation.Annotation` contract prescribes (arrays contribute
  their identity hash; see "## Left out"), a cached `toString`, and dispatch
  on the invoked method's name.

Modules:

- `JvmModel` (`jvm_model.dfy`): classes, runtime values and the facts of the
  running JVM the caller consults. These are the class hierarchy behind
  `Class.isInstance`, `Object.hashCode`, `Object.toString` and a class's
  Kotlin name. They are given as parameters (`Jvm`).
- `Outcomes` (`outcomes.dfy`): `Option`, `Result`, the exceptions thrown, and
  their messages.
- `AnnotationInstances` (`annotation_instance.dfy`) models
  `createAnnotationInstance`:
  - the `LinkedHashMap` that `toMap` builds;
  - `equals`, `hashCode`, `toString` and dispatch as functions;
  - the proxy object as the class `AnnotationInstance`, whose two `lazy` values
    are compute-once cells.
- `AnnotationCallers` (`annotation_caller.dfy`) models the class
  `AnnotationConstructorCaller`:
  - the guard;
  - the erased types and stored defaults;
  - `transformKotlinToJvm`;
  - `call`.

Two details of the code decide the model:

- the hash multiplier is 127, as the `java.lang.annotation.Annotation`
  contract prescribes;
- the guard removes only the first `"value"` from the parameter names (Kotlin's
  `List - element`), so a list naming `"value"` twice is rejected.

`toString` uses the class's canonical name.

## Model

| member | source | states |
|---|---|---|
| AnnotationCallers.RemoveFirst | core/reflection.jvm/src/kotlin/reflect/jvm/internal/AnnotationConstructorCaller.kt:45 | `names - "value"` is the names with one occurrence of "value" taken out (multiset difference), one shorter exactly when "value" occurs |
| AnnotationCallers.GuardExactly | core/reflection.jvm/src/kotlin/reflect/jvm/internal/AnnotationConstructorCaller.kt:43-52 | the guard rejects exactly when optional arguments are not allowed, the origin is Java, and the names are neither empty nor exactly ["value"]; Kotlin origin or allowed optional arguments never reject; ["value", "value"] is rejected |
| AnnotationCallers.GuardWithDistinctNames | core/reflection.jvm/src/kotlin/reflect/jvm/internal/AnnotationConstructorCaller.kt:43-52 | for distinct names: rejected iff optional arguments are not allowed, the origin is Java and some parameter name is not "value" |
| AnnotationCallers.AnnotationConstructorCaller.Construct | core/reflection.jvm/src/kotlin/reflect/jvm/internal/AnnotationConstructorCaller.kt:26-52 | construction throws the positional-call `UnsupportedOperationException` iff the guard rejects; otherwise it yields a fresh caller whose erased types and defaults are computed member by member |
| AnnotationCallers.AnnotationConstructorCaller.constructor | core/reflection.jvm/src/kotlin/reflect/jvm/internal/AnnotationConstructorCaller.kt:26-41 | the fields of a caller whose guard passed: `erasedParameterTypes[i]` is the wrapper of member i's return type, `defaultValues[i]` its default with a `Class` turned into its `KClass` |
| AnnotationCallers.TransformKotlinToJvm | core/reflection.jvm/src/kotlin/reflect/jvm/internal/AnnotationConstructorCaller.kt:72-81 | an accepted value is a non-null instance of the expected type; a `Class` or `null` is always refused; a `KClass` becomes its `Class`, anything else is kept; a non-class value that is an instance is accepted unchanged; a `KClass` whose `Class` is an instance is accepted as that `Class` |
| AnnotationCallers.ClassDefaultAdaptsBack | core/reflection.jvm/src/kotlin/reflect/jvm/internal/AnnotationConstructorCaller.kt:72-81 | a `Class` default, stored as its `KClass`, adapts back to the same `Class` when that fits the member's type, while the same `Class` passed directly is refused |
| AnnotationCallers.NullArgument | core/reflection.jvm/src/kotlin/reflect/jvm/internal/AnnotationConstructorCaller.kt:59-60 | a `null` argument is refused when optional arguments are not allowed, and is judged by the stored default when they are |
| AnnotationCallers.ArgumentUsedAsGiven | core/reflection.jvm/src/kotlin/reflect/jvm/internal/AnnotationConstructorCaller.kt:59-60 | a non-null argument, or any argument when optional arguments are not allowed, is adapted as given, without its default |
| AnnotationCallers.AdaptFrom | core/reflection.jvm/src/kotlin/reflect/jvm/internal/AnnotationConstructorCaller.kt:58-62 | on success, one adapted value per remaining argument, each the accepted adaptation of its argument or default |
| AnnotationCallers.AdaptFromFirstFailure | core/reflection.jvm/src/kotlin/reflect/jvm/internal/AnnotationConstructorCaller.kt:58-62 | the `mapIndexed` throws iff some argument from `from` on is refused, and then with the `IllegalArgumentType` of the lowest refused index |
| AnnotationCallers.CallFailsAtFirstRefusedArgument | core/reflection.jvm/src/kotlin/reflect/jvm/internal/AnnotationConstructorCaller.kt:58-86 | `call` fails iff some argument is refused; the exception names the lowest refused index, that parameter's name and its erased type, and every earlier argument was accepted |
| AnnotationCallers.CallStoresAdaptedArguments | core/reflection.jvm/src/kotlin/reflect/jvm/internal/AnnotationConstructorCaller.kt:58-64 | on success the map's keys are distinct and are exactly the parameter names; for distinct names it has one entry per parameter, in declaration order, each holding its adapted argument; in general each name holds the adapted argument of its last occurrence |
| AnnotationCallers.WellTypedArgumentsAreStored | core/reflection.jvm/src/kotlin/reflect/jvm/internal/AnnotationConstructorCaller.kt:54-65 | when every argument (or its default) is an instance of its erased type and not a class reference, `call` succeeds and stores exactly those values |
| AnnotationCallers.PointScenario | core/reflection.jvm/src/kotlin/reflect/jvm/internal/AnnotationConstructorCaller.kt:43-129 | `Point(x: Int, y: String)` called with 5 and "hi" passes the guard, stores x=5, y=hi in that order and prints "@Point(x=5, y=hi)" |
| AnnotationCallers.AnnotationConstructorCaller.Call | core/reflection.jvm/src/kotlin/reflect/jvm/internal/AnnotationConstructorCaller.kt:54-65 | throws exactly what `CallResult` throws, an `IllegalArgumentType` naming a parameter and its non-primitive erased type; otherwise it returns a fresh annotation object of the class, holding `CallResult`'s map, with empty caches |
| Outcomes.DecimalString | core/reflection.jvm/src/kotlin/reflect/jvm/internal/AnnotationConstructorCaller.kt:85 | the index as printed in the message is non-empty, all digits, without leading zero |
| Outcomes.DecimalRoundTrip | core/reflection.jvm/src/kotlin/reflect/jvm/internal/AnnotationConstructorCaller.kt:85 | the printed index reads back as the index |
| Outcomes.IllegalArgumentTypeMessage | core/reflection.jvm/src/kotlin/reflect/jvm/internal/AnnotationConstructorCaller.kt:83-86 | the message starts "Argument #", then the index's digits, a space, and the parameter name |
| JvmModel.WrapperByPrimitive | core/reflection.jvm/src/kotlin/reflect/jvm/internal/AnnotationConstructorCaller.kt:38 | the erased type is never primitive, and a non-primitive type is kept |
| JvmModel.BoxedIsInstanceOfWrapper | core/reflection.jvm/src/kotlin/reflect/jvm/internal/AnnotationConstructorCaller.kt:37-38 | a boxed primitive argument is an instance of the erased type of its primitive |
| AnnotationInstances.Get | core/reflection.jvm/src/kotlin/reflect/jvm/internal/AnnotationConstructorCaller.kt:139 | `values[k]` is `null` for a key not in the map |
| AnnotationInstances.GetAt | core/reflection.jvm/src/kotlin/reflect/jvm/internal/AnnotationConstructorCaller.kt:139 | in a map without duplicate keys every entry's key reads its own value |
| AnnotationInstances.Put | core/reflection.jvm/src/kotlin/reflect/jvm/internal/AnnotationConstructorCaller.kt:64 | `put` adds its key to the key set |
| AnnotationInstances.PutGet | core/reflection.jvm/src/kotlin/reflect/jvm/internal/AnnotationConstructorCaller.kt:64 | after `put(k, v)`, `k` reads `v` and every other key reads as before |
| AnnotationInstances.PutShape | core/reflection.jvm/src/kotlin/reflect/jvm/internal/AnnotationConstructorCaller.kt:64 | `put` keeps keys distinct, appends a new key at the end, and leaves every key of an existing entry in its position |
| AnnotationInstances.PutAll | core/reflection.jvm/src/kotlin/reflect/jvm/internal/AnnotationConstructorCaller.kt:64 | putting pairs in order yields the union of the key sets |
| AnnotationInstances.ToMapSpec | core/reflection.jvm/src/kotlin/reflect/jvm/internal/AnnotationConstructorCaller.kt:64 | `toMap` has distinct keys, the keys of the pairs, each holding its last pair's value; pairs with distinct keys come back unchanged, in order |
| AnnotationInstances.ZipKeys | core/reflection.jvm/src/kotlin/reflect/jvm/internal/AnnotationConstructorCaller.kt:64 | the keys of `names.zip(values)` are the names, distinct when the names are |
| AnnotationInstances.ZipLookup | core/reflection.jvm/src/kotlin/reflect/jvm/internal/AnnotationConstructorCaller.kt:64-94 | for distinct names, member `names[i]` reads `values[i]`, both in the map and through the object's member method |
| AnnotationInstances.MemberAgrees | core/reflection.jvm/src/kotlin/reflect/jvm/internal/AnnotationConstructorCaller.kt:96-109 | a member that is not a primitive or `String` array compares with `==`; a primitive array against a primitive array of the same kind, or a `String` array against a `String` array, compares their elements (`Arrays.equals`), not their identity; a failed array cast throws for that member; an element-wise comparison that succeeds saw an array of the same runtime class |
| AnnotationInstances.MembersAgreeTrueIff | core/reflection.jvm/src/kotlin/reflect/jvm/internal/AnnotationConstructorCaller.kt:92-110 | `methods.all` is true iff every member agrees |
| AnnotationInstances.MembersAgreeThrownIff | core/reflection.jvm/src/kotlin/reflect/jvm/internal/AnnotationConstructorCaller.kt:92-110 | `methods.all` throws iff some member's cast fails and every member before it agrees |
| AnnotationInstances.EqualsTrueIff | core/reflection.jvm/src/kotlin/reflect/jvm/internal/AnnotationConstructorCaller.kt:90-110 | `equals` is true iff the other object is an annotation of the same class and every member agrees; for any other object it is false |
| AnnotationInstances.EqualsReflexive | core/reflection.jvm/src/kotlin/reflect/jvm/internal/AnnotationConstructorCaller.kt:90-110 | an annotation object equals itself |
| AnnotationInstances.AnnotationInstance.EqualsItself | core/reflection.jvm/src/kotlin/reflect/jvm/internal/AnnotationConstructorCaller.kt:90-110 | the object's `equals`, called with the object itself, is true |
| AnnotationInstances.EqualWithoutArraysMeansSameValues | core/reflection.jvm/src/kotlin/reflect/jvm/internal/AnnotationConstructorCaller.kt:90-129 | without array members, two equal objects of one class hold the same values, and so have the same `hashCode` and `toString` |
| AnnotationInstances.OneDifferentMemberMakesUnequal | core/reflection.jvm/src/kotlin/reflect/jvm/internal/AnnotationConstructorCaller.kt:90-110 | objects differing in one member compared with `==` are not equal |
| AnnotationInstances.ArrayMemberComparedByElements | core/reflection.jvm/src/kotlin/reflect/jvm/internal/AnnotationConstructorCaller.kt:97-106 | objects differing only in a primitive or `String` array member are equal exactly when the two arrays hold the same elements, whatever their identities |
| AnnotationInstances.EntrySumConcat | core/reflection.jvm/src/kotlin/reflect/jvm/internal/AnnotationConstructorCaller.kt:112-117 | the sum of entry hashes over concatenated entry lists is the sum of the two sums |
| AnnotationInstances.EntrySumPermutation | core/reflection.jvm/src/kotlin/reflect/jvm/internal/AnnotationConstructorCaller.kt:112-117 | the sum of entry hashes does not depend on entry order |
| AnnotationInstances.HashOfPermutation | core/reflection.jvm/src/kotlin/reflect/jvm/internal/AnnotationConstructorCaller.kt:112-117 | the 32-bit wrapped sum of `(127 * hash(name)) xor hash(value)` depends only on the multiset of entries |
| AnnotationInstances.JoinInOrder | core/reflection.jvm/src/kotlin/reflect/jvm/internal/AnnotationConstructorCaller.kt:124-127 | `joinTo` writes part k right after the parts before it and a separator |
| AnnotationInstances.ToStringListsEntriesInOrder | core/reflection.jvm/src/kotlin/reflect/jvm/internal/AnnotationConstructorCaller.kt:119-129 | the string is "@" + canonical name + "(" followed by the "name=value" entries in map order separated by ", ", and ends with ")" |
| AnnotationInstances.ToStringEndsWithLastEntry | core/reflection.jvm/src/kotlin/reflect/jvm/internal/AnnotationConstructorCaller.kt:119-129 | for a non-empty map the string is exactly "@" + canonical name + "(", the entries before the last joined by ", ", a ", " when there are any, the last entry, and ")": nothing else follows the last entry |
| AnnotationInstances.ToStringWithoutMembers | core/reflection.jvm/src/kotlin/reflect/jvm/internal/AnnotationConstructorCaller.kt:119-129 | an annotation without members prints as "@" + canonical name + "()" |
| AnnotationInstances.DispatchRoutes | core/reflection.jvm/src/kotlin/reflect/jvm/internal/AnnotationConstructorCaller.kt:131-143 | `hashCode` gives the hash; one-argument `equals` succeeds iff the comparison does; a stored member name gives its value, including a member named `equals` called with other than one argument; any other name that is not a stored member, `equals` with other than one argument included, throws `MethodNotSupported` |
| AnnotationInstances.DispatchFixedNames | core/reflection.jvm/src/kotlin/reflect/jvm/internal/AnnotationConstructorCaller.kt:131-138 | `annotationType` gives the class, `toString` the string form; one-argument `equals` answers boxed true iff the comparison is true, boxed false when it is false, and throws the comparison's exception unchanged when a cast fails |
| AnnotationInstances.AnnotationInstance.constructor | core/reflection.jvm/src/kotlin/reflect/jvm/internal/AnnotationConstructorCaller.kt:88-120 | a new object holds the class, member names and values, with both lazy cells empty |
| AnnotationInstances.AnnotationInstance.HashCode | core/reflection.jvm/src/kotlin/reflect/jvm/internal/AnnotationConstructorCaller.kt:112-117 | returns the hash formula's value and caches it; once cached it never changes |
| AnnotationInstances.AnnotationInstance.ToString | core/reflection.jvm/src/kotlin/reflect/jvm/internal/AnnotationConstructorCaller.kt:119-129 | returns the string form and caches it; once cached it never changes |
| AnnotationInstances.AnnotationInstance.Invoke | core/reflection.jvm/src/kotlin/reflect/jvm/internal/AnnotationConstructorCaller.kt:131-143 | answers as `Dispatch`; `hashCode` fills the hash cell with the hash and `toString` fills the string cell with the string form; no other name changes a cell, and a filled cell keeps its value |

## Left out

- Java reflection is not modelled: `getDeclaredMethod`, `genericReturnType`, `Method.defaultValue`, `Method.invoke` on the other object, `Proxy.newProxyInstance` and class loaders. The members are given as a list of `Member` values. The other object's member methods are modelled as a map lookup on an `Annot` value; a member it lacks reads as `null`.
- `checkArguments` and the `FunctionCaller` superclass are not part of this model. `Call` requires one argument per parameter.
- `AnnotationInstances.HashOfPermutation`, `EntryHash`: `hashCode` of values (and so of floats, doubles and arrays) is an abstract function. The identity hash of arrays, which breaks hash/equals consistency for element-wise compared arrays, is not asserted either way.
- `AnnotationInstances.MemberAgrees`: `Float`/`Double` boxes and arrays compare by bit pattern. NaN and signed-zero behaviour of `Arrays.equals` is not modelled.
- `AnnotationInstances.MemberAgrees`: the cast `as Array<String>` is modelled as succeeding exactly for arrays whose component class is `String`. JVM array covariance (a `String[]` typed as `Object[]`) is not modelled.
- `AnnotationInstances.MemberAgrees`: `==` on a nested annotation is value equality of the modelled objects. A nested proxy's own `equals` is not called.
- `Outcomes.IllegalArgumentTypeMessage`: the Kotlin qualified name of the type is an abstract function, and only the message's layout is stated. The text of the `KotlinReflectionInternalError` message (`Method.toString` and the argument list) is not modelled; the failure carries the method name and arguments instead.
- The text of the guard's `UnsupportedOperationException` message is not modelled; the failure is the constant `PositionalCallNotAllowed`.
- The `lazy` cells are compute-once fields. Their thread safety is not modelled.
- The remaining files of the repository are not part of this model. The destructuring-shadowing diagnostics file is compiler test input; the name resolver that produces those diagnostics is not part of the sources this model covers. The lint test input and the UAST `UMethod` adapter interface have no logic of their own.
