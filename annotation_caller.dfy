/** `AnnotationConstructorCaller`: calls an annotation class's constructor with
    positional arguments by checking each argument against the member's erased
    type and building the annotation object from the checked values. */
module AnnotationCallers {
  import opened JvmModel
  import opened Outcomes
  import opened AnnotationInstances

  /** Where the annotation class was declared. */
  datatype Origin = Java | Kotlin

  /** A member of the annotation class as `jClass.getDeclaredMethod(name)` gives
      it: its name, its return type, and its default value (`null` when it has
      none). */
  datatype Member = Member(name: string, returnType: JClass, defaultValue: Value)

  // ---------------------------------------------------------------- construction

  /** `s - x`: the list without the first occurrence of `x`. */
  function RemoveFirst(s: seq<string>, x: string): (r: seq<string>)
    ensures multiset(r) == multiset(s) - multiset{x}
    ensures |r| == if x in s then |s| - 1 else |s|
  {
    if s == [] then []
    else if s[0] == x then
      assert s == [x] + s[1..];
      s[1..]
    else
      assert s == [s[0]] + s[1..];
      [s[0]] + RemoveFirst(s[1..], x)
  }

  /** The condition under which the `init` block throws: optional arguments are
      not allowed, the class comes from Java, and the parameter names minus one
      "value" leave something over. */
  predicate PositionalCallRejected(names: seq<string>, optional: bool, origin: Origin) {
    !optional && origin == Java && RemoveFirst(names, "value") != []
  }

  /** The only parameter lists a positional call of a Java annotation accepts
      are the empty one and ["value"]; a Kotlin annotation, or a call that allows
      optional arguments, is never rejected. A list naming "value" twice is
      rejected, since only one occurrence is taken away. */
  lemma GuardExactly(names: seq<string>, optional: bool, origin: Origin)
    ensures PositionalCallRejected(names, optional, origin) <==>
      !optional && origin == Java && names != [] && names != ["value"]
    ensures PositionalCallRejected(["value", "value"], false, Java)
  {
  }

  /** For the distinct member names a real annotation has: rejected exactly when
      some parameter is not named "value". */
  lemma GuardWithDistinctNames(names: seq<string>, optional: bool, origin: Origin)
    requires DistinctNames(names)
    ensures PositionalCallRejected(names, optional, origin) <==>
      !optional && origin == Java && exists i :: 0 <= i < |names| && names[i] != "value"
  {
    GuardExactly(names, optional, origin);
    if |names| >= 2 {
      assert names[0] != "value" || names[1] != "value";
    }
  }

  /** `method.returnType.let { it.wrapperByPrimitive ?: it }`. */
  function ErasedType(m: Member): JClass {
    WrapperByPrimitive(m.returnType)
  }

  /** `method.defaultValue.let { (it as? Class<*>)?.kotlin ?: it }`: a `Class`
      default is kept as its `KClass`. */
  function StoredDefault(m: Member): Value {
    if m.defaultValue.ClassRef? then KClassRef(m.defaultValue.c) else m.defaultValue
  }

  // ---------------------------------------------------------------- call

  /** `transformKotlinToJvm`: a `Class` is refused, a `KClass` becomes its Java
      class, anything else is kept; the result is accepted only if it is an
      instance of `expected`. */
  function TransformKotlinToJvm(v: Value, expected: JClass, jvm: Jvm): (r: Option<Value>)
    ensures r.Some? ==> r.value != Null && IsInstance(r.value, expected, jvm)
    ensures v.ClassRef? || v == Null ==> r == None
    ensures r.Some? ==> r.value == (if v.KClassRef? then ClassRef(v.c) else v)
    ensures !v.ClassRef? && !v.KClassRef? && IsInstance(v, expected, jvm) ==> r == Some(v)
    ensures v.KClassRef? && IsInstance(ClassRef(v.c), expected, jvm) ==> r == Some(ClassRef(v.c))
  {
    match v
    case ClassRef(_) => None
    case KClassRef(c) => if IsInstance(ClassRef(c), expected, jvm) then Some(ClassRef(c)) else None
    case _ => if IsInstance(v, expected, jvm) then Some(v) else None
  }

  /** `if (arg == null && areOptionalArgumentsAllowed) defaultValues[index] else arg`. */
  function ArgumentValue(arg: Value, optional: bool, default: Value): Value {
    if arg == Null && optional then default else arg
  }

  /** The argument lists line up with the parameters. */
  predicate Lined(args: seq<Value>, names: seq<string>, erased: seq<JClass>, defaults: seq<Value>) {
    |args| == |names| == |erased| == |defaults|
  }

  /** The value argument `i` turns into, or `None` when it is refused. */
  function Adapted(args: seq<Value>, optional: bool, erased: seq<JClass>, defaults: seq<Value>, jvm: Jvm, i: nat): Option<Value>
    requires |args| == |erased| == |defaults| && i < |args|
  {
    TransformKotlinToJvm(ArgumentValue(args[i], optional, defaults[i]), erased[i], jvm)
  }

  /** The `mapIndexed` of `call` from index `from` on: every argument adapted in
      order, stopping at the first refused one with its `IllegalArgumentException`. */
  function AdaptFrom(args: seq<Value>, optional: bool, names: seq<string>, erased: seq<JClass>, defaults: seq<Value>,
                     jvm: Jvm, from: nat): (r: Result<seq<Value>>)
    requires Lined(args, names, erased, defaults) && from <= |args|
    ensures r.Ok? ==> (|r.value| == |args| - from &&
      forall k :: 0 <= k < |r.value| ==> Adapted(args, optional, erased, defaults, jvm, from + k) == Some(r.value[k]))
    decreases |args| - from
  {
    if from == |args| then Ok([])
    else
      match Adapted(args, optional, erased, defaults, jvm, from)
      case None => Thrown(IllegalArgumentType(from, names[from], erased[from]))
      case Some(v) =>
        match AdaptFrom(args, optional, names, erased, defaults, jvm, from + 1)
        case Ok(vs) => Ok([v] + vs)
        case Thrown(e) => Thrown(e)
  }

  /** What `call(args)` stores in the new annotation object, or the exception it
      throws. */
  function CallResult(args: seq<Value>, optional: bool, names: seq<string>, erased: seq<JClass>, defaults: seq<Value>,
                      jvm: Jvm): Result<seq<Entry>>
    requires Lined(args, names, erased, defaults)
  {
    match AdaptFrom(args, optional, names, erased, defaults, jvm, 0)
    case Ok(vs) => Ok(ToMap(Zip(names, vs)))
    case Thrown(e) => Thrown(e)
  }

  lemma {:induction false} AdaptFromFirstFailure(args: seq<Value>, optional: bool, names: seq<string>, erased: seq<JClass>,
                                                 defaults: seq<Value>, jvm: Jvm, from: nat)
    requires Lined(args, names, erased, defaults) && from <= |args|
    ensures AdaptFrom(args, optional, names, erased, defaults, jvm, from).Thrown? <==>
      exists i :: from <= i < |args| && Adapted(args, optional, erased, defaults, jvm, i).None?
    ensures AdaptFrom(args, optional, names, erased, defaults, jvm, from).Thrown? ==>
      exists i :: from <= i < |args| && Adapted(args, optional, erased, defaults, jvm, i).None? &&
        (forall j :: from <= j < i ==> Adapted(args, optional, erased, defaults, jvm, j).Some?) &&
        AdaptFrom(args, optional, names, erased, defaults, jvm, from).error == IllegalArgumentType(i, names[i], erased[i])
    decreases |args| - from
  {
    if from < |args| {
      AdaptFromFirstFailure(args, optional, names, erased, defaults, jvm, from + 1);
    }
  }

  /** `call` fails exactly when some argument is refused, and then with the
      `IllegalArgumentException` of the lowest refused index, naming that index,
      the parameter's name and its erased type. */
  lemma CallFailsAtFirstRefusedArgument(args: seq<Value>, optional: bool, names: seq<string>, erased: seq<JClass>,
                                        defaults: seq<Value>, jvm: Jvm)
    requires Lined(args, names, erased, defaults)
    ensures CallResult(args, optional, names, erased, defaults, jvm).Thrown? <==>
      exists i :: 0 <= i < |args| && Adapted(args, optional, erased, defaults, jvm, i).None?
    ensures CallResult(args, optional, names, erased, defaults, jvm).Thrown? ==>
      exists i :: 0 <= i < |args| && Adapted(args, optional, erased, defaults, jvm, i).None? &&
        (forall j :: 0 <= j < i ==> Adapted(args, optional, erased, defaults, jvm, j).Some?) &&
        CallResult(args, optional, names, erased, defaults, jvm).error == IllegalArgumentType(i, names[i], erased[i])
  {
    AdaptFromFirstFailure(args, optional, names, erased, defaults, jvm, 0);
  }

  /** On success the object holds one entry per parameter, in declaration order,
      each name with its adapted argument (for distinct names); in general each
      name holds the adapted argument of its last occurrence. */
  lemma CallStoresAdaptedArguments(args: seq<Value>, optional: bool, names: seq<string>, erased: seq<JClass>,
                                   defaults: seq<Value>, jvm: Jvm)
    requires Lined(args, names, erased, defaults)
    ensures var r := CallResult(args, optional, names, erased, defaults, jvm);
      r.Ok? ==>
        && DistinctKeys(r.value)
        && (forall k :: k in KeySet(r.value) <==> k in names)
        && (forall k :: Get(r.value, k) ==
              LastOr(Zip(names, AdaptFrom(args, optional, names, erased, defaults, jvm, 0).value), k, Null))
        && (DistinctNames(names) ==> (|r.value| == |names| &&
             forall i :: 0 <= i < |names| ==>
               r.value[i].0 == names[i] && Adapted(args, optional, erased, defaults, jvm, i) == Some(r.value[i].1)))
  {
    var a := AdaptFrom(args, optional, names, erased, defaults, jvm, 0);
    if a.Ok? {
      var z := Zip(names, a.value);
      ToMapSpec(z);
      ZipKeys(names, a.value);
      forall i | 0 <= i < |names| ensures Adapted(args, optional, erased, defaults, jvm, i) == Some(a.value[i]) {
        assert Adapted(args, optional, erased, defaults, jvm, 0 + i) == Some(a.value[i]);
      }
    }
  }

  /** When every argument (or the default standing in for it) is neither a
      `Class` nor a `KClass` and is an instance of its erased type, `call`
      succeeds and stores exactly those values. */
  lemma WellTypedArgumentsAreStored(args: seq<Value>, optional: bool, names: seq<string>, erased: seq<JClass>,
                                    defaults: seq<Value>, jvm: Jvm)
    requires Lined(args, names, erased, defaults)
    requires forall i :: 0 <= i < |args| ==>
      var v := ArgumentValue(args[i], optional, defaults[i]);
      !v.ClassRef? && !v.KClassRef? && IsInstance(v, erased[i], jvm)
    ensures CallResult(args, optional, names, erased, defaults, jvm) ==
      Ok(ToMap(Zip(names, seq(|args|, i requires 0 <= i < |args| => ArgumentValue(args[i], optional, defaults[i])))))
  {
    var expected := seq(|args|, i requires 0 <= i < |args| => ArgumentValue(args[i], optional, defaults[i]));
    AdaptFromFirstFailure(args, optional, names, erased, defaults, jvm, 0);
    var a := AdaptFrom(args, optional, names, erased, defaults, jvm, 0);
    assert a.Ok?;
    assert a.value == expected by {
      forall i | 0 <= i < |args| ensures a.value[i] == expected[i] {
        assert Adapted(args, optional, erased, defaults, jvm, 0 + i) == Some(a.value[i]);
      }
    }
  }

  /** Without optional arguments a `null` argument is always refused, since no
      default replaces it; with them, a `null` argument is judged by the
      parameter's stored default. */
  lemma NullArgument(args: seq<Value>, optional: bool, erased: seq<JClass>, defaults: seq<Value>, jvm: Jvm, i: nat)
    requires |args| == |erased| == |defaults| && i < |args| && args[i] == Null
    ensures !optional ==> Adapted(args, optional, erased, defaults, jvm, i) == None
    ensures optional ==> Adapted(args, optional, erased, defaults, jvm, i) == TransformKotlinToJvm(defaults[i], erased[i], jvm)
  {
  }

  /** An argument that is not `null`, or any argument when optional arguments
      are not allowed, is adapted as given: its default plays no part. */
  lemma ArgumentUsedAsGiven(args: seq<Value>, optional: bool, erased: seq<JClass>, defaults: seq<Value>, jvm: Jvm, i: nat)
    requires |args| == |erased| == |defaults| && i < |args| && (args[i] != Null || !optional)
    ensures Adapted(args, optional, erased, defaults, jvm, i) == TransformKotlinToJvm(args[i], erased[i], jvm)
  {
  }

  /** A `Class` default, stored as its `KClass`, adapts back to the same `Class`
      (when `Class` objects fit the member's type), while the same `Class`
      passed directly as an argument is refused. */
  lemma ClassDefaultAdaptsBack(m: Member, jvm: Jvm)
    requires m.defaultValue.ClassRef?
    ensures TransformKotlinToJvm(StoredDefault(m), ErasedType(m), jvm) ==
      if IsInstance(m.defaultValue, ErasedType(m), jvm) then Some(m.defaultValue) else None
    ensures TransformKotlinToJvm(m.defaultValue, ErasedType(m), jvm) == None
  {
  }

  /** A Kotlin annotation `Point(x: Int, y: String)` called positionally with
      `5` and `"hi"`: the guard lets it through, the object holds `x=5, y=hi` in
      that order, and its string form is "@Point(x=5, y=hi)". */
  lemma PointScenario(jvm: Jvm)
    requires jvm.show(Boxed(IntKind, 5)) == "5"
    ensures var names := ["x", "y"];
      var methods := [Member("x", Primitive(IntKind), Null), Member("y", StringClass, Null)];
      var erased := [ErasedType(methods[0]), ErasedType(methods[1])];
      var defaults := [StoredDefault(methods[0]), StoredDefault(methods[1])];
      var stored := [("x", Boxed(IntKind, 5)), ("y", Str("hi"))];
      && !PositionalCallRejected(names, false, Kotlin)
      && CallResult([Boxed(IntKind, 5), Str("hi")], false, names, erased, defaults, jvm) == Ok(stored)
      && ToStringOf(Named("Point"), stored, jvm) == "@Point(x=5, y=hi)"
  {
    PointStored(jvm);
    PointString(jvm);
  }

  /** The `call` half of `PointScenario`. */
  lemma PointStored(jvm: Jvm)
    ensures CallResult([Boxed(IntKind, 5), Str("hi")], false, ["x", "y"],
                       [Named("java.lang.Integer"), StringClass], [Null, Null], jvm) ==
      Ok([("x", Boxed(IntKind, 5)), ("y", Str("hi"))])
  {
    var names := ["x", "y"];
    var erased := [Named("java.lang.Integer"), StringClass];
    var defaults := [Null, Null];
    var args := [Boxed(IntKind, 5), Str("hi")];
    var stored := [("x", Boxed(IntKind, 5)), ("y", Str("hi"))];
    WellTypedArgumentsAreStored(args, false, names, erased, defaults, jvm);
    assert seq(|args|, i requires 0 <= i < |args| => ArgumentValue(args[i], false, defaults[i])) == args;
    assert Zip(names, args) == stored;
    assert DistinctKeys(stored) by {
      assert KeySet(stored[1..]) == {"y"};
    }
    ToMapSpec(stored);
  }

  /** The `toString` half of `PointScenario`. */
  lemma PointString(jvm: Jvm)
    requires jvm.show(Boxed(IntKind, 5)) == "5"
    ensures ToStringOf(Named("Point"), [("x", Boxed(IntKind, 5)), ("y", Str("hi"))], jvm) == "@Point(x=5, y=hi)"
  {
    var stored := [("x", Boxed(IntKind, 5)), ("y", Str("hi"))];
    assert EntryText(stored[0], jvm) == "x=5" by {
      assert Show(Boxed(IntKind, 5), jvm) == "5";
    }
    assert EntryText(stored[1], jvm) == "y=hi";
    assert EntryTexts(stored, jvm) == ["x=5", "y=hi"];
    assert Join(["x=5", "y=hi"], ", ") == "x=5, y=hi" by {
      assert ["x=5", "y=hi"][..1] == ["x=5"];
    }
  }

  /** The caller of one annotation class's constructor. Everything it holds is
      fixed when it is created. */
  class AnnotationConstructorCaller {
    const jClass: JClass
    const parameterNames: seq<string>
    const areOptionalArgumentsAllowed: bool
    const methods: seq<Member>
    const erasedParameterTypes: seq<JClass>
    const defaultValues: seq<Value>
    const jvm: Jvm

    /** `methods` are the members named by `parameterNames`, and the two derived
        lists are computed from them member by member. */
    ghost predicate Valid() {
      && |methods| == |parameterNames| == |erasedParameterTypes| == |defaultValues|
      && (forall i :: 0 <= i < |methods| ==> methods[i].name == parameterNames[i])
      && (forall i :: 0 <= i < |methods| ==> erasedParameterTypes[i] == ErasedType(methods[i]))
      && (forall i :: 0 <= i < |methods| ==> defaultValues[i] == StoredDefault(methods[i]))
    }

    /** The constructor once its `init` check has passed. */
    constructor (jClass: JClass, parameterNames: seq<string>, areOptionalArgumentsAllowed: bool, origin: Origin,
                 methods: seq<Member>, jvm: Jvm)
      requires |methods| == |parameterNames| && forall i :: 0 <= i < |methods| ==> methods[i].name == parameterNames[i]
      requires !PositionalCallRejected(parameterNames, areOptionalArgumentsAllowed, origin)
      ensures Valid()
      ensures this.jClass == jClass && this.parameterNames == parameterNames && this.methods == methods
      ensures this.areOptionalArgumentsAllowed == areOptionalArgumentsAllowed && this.jvm == jvm
    {
      this.jClass := jClass;
      this.parameterNames := parameterNames;
      this.areOptionalArgumentsAllowed := areOptionalArgumentsAllowed;
      this.methods := methods;
      this.jvm := jvm;
      erasedParameterTypes := seq(|methods|, i requires 0 <= i < |methods| => ErasedType(methods[i]));
      defaultValues := seq(|methods|, i requires 0 <= i < |methods| => StoredDefault(methods[i]));
    }

    /** The Kotlin constructor as a whole: it throws `UnsupportedOperationException`
        exactly when the positional call is rejected, and otherwise yields a new
        caller. */
    static method Construct(jClass: JClass, parameterNames: seq<string>, areOptionalArgumentsAllowed: bool,
                            origin: Origin, methods: seq<Member>, jvm: Jvm)
      returns (r: Result<AnnotationConstructorCaller>)
      requires |methods| == |parameterNames| && forall i :: 0 <= i < |methods| ==> methods[i].name == parameterNames[i]
      ensures r.Thrown? <==> PositionalCallRejected(parameterNames, areOptionalArgumentsAllowed, origin)
      ensures r.Thrown? ==> r.error == PositionalCallNotAllowed
      ensures r.Ok? ==> (fresh(r.value) && r.value.Valid() && r.value.jClass == jClass &&
        r.value.parameterNames == parameterNames && r.value.methods == methods &&
        r.value.areOptionalArgumentsAllowed == areOptionalArgumentsAllowed && r.value.jvm == jvm)
    {
      if PositionalCallRejected(parameterNames, areOptionalArgumentsAllowed, origin) {
        r := Thrown(PositionalCallNotAllowed);
      } else {
        var c := new AnnotationConstructorCaller(jClass, parameterNames, areOptionalArgumentsAllowed, origin, methods, jvm);
        r := Ok(c);
      }
    }

    /** `call(args)`, for an argument list of the right length: the exception of
        the first refused argument, or a new annotation object holding the
        adapted arguments, with both of its cached cells still empty. */
    method Call(args: seq<Value>) returns (r: Result<AnnotationInstance>)
      requires Valid() && |args| == |parameterNames|
      ensures var expected := CallResult(args, areOptionalArgumentsAllowed, parameterNames, erasedParameterTypes, defaultValues, jvm);
        && (r.Thrown? <==> expected.Thrown?)
        && (r.Thrown? ==> r.error == expected.error)
        && (r.Thrown? ==> (r.error.IllegalArgumentType? && r.error.index < |args| &&
             r.error.name == parameterNames[r.error.index] &&
             r.error.expected == ErasedType(methods[r.error.index]) && !r.error.expected.Primitive?))
        && (r.Ok? ==> (fresh(r.value) && r.value.Valid() && r.value.values == expected.value &&
             r.value.annotationClass == jClass && r.value.methodNames == parameterNames && r.value.jvm == jvm &&
             r.value.hashCodeCell.None? && r.value.toStringCell.None?))
    {
      CallFailsAtFirstRefusedArgument(args, areOptionalArgumentsAllowed, parameterNames, erasedParameterTypes, defaultValues, jvm);
      var adapted := AdaptFrom(args, areOptionalArgumentsAllowed, parameterNames, erasedParameterTypes, defaultValues, jvm, 0);
      match adapted {
        case Thrown(e) =>
          r := Thrown(e);
        case Ok(values) =>
          var instance := new AnnotationInstance(jClass, parameterNames, ToMap(Zip(parameterNames, values)), jvm);
          r := Ok(instance);
      }
    }
  }
}
