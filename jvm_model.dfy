/** The part of the Java virtual machine that the annotation constructor caller
    consults: classes, the runtime values passed to and stored by an annotation,
    the class hierarchy behind `Class.isInstance`, and the two `Object` methods
    (`hashCode`, `toString`) whose code lies outside the model. */
module JvmModel {

  /** The eight Java primitive types. */
  datatype PrimKind = BooleanKind | CharKind | ByteKind | ShortKind | IntKind | FloatKind | LongKind | DoubleKind

  /** A `java.lang.Class` object: a primitive type, a class or interface named by
      its canonical (dotted) name, or an array class. */
  datatype JClass =
    | Primitive(kind: PrimKind)
    | Named(name: string)
    | ArrayOf(component: JClass)

  const StringClass: JClass := Named("java.lang.String")

  /** The name of the primitive type as Java writes it. */
  function PrimitiveName(k: PrimKind): string {
    match k
    case BooleanKind => "boolean"
    case CharKind => "char"
    case ByteKind => "byte"
    case ShortKind => "short"
    case IntKind => "int"
    case FloatKind => "float"
    case LongKind => "long"
    case DoubleKind => "double"
  }

  /** The name of the class that boxes a value of primitive type `k`. */
  function WrapperName(k: PrimKind): string {
    match k
    case BooleanKind => "java.lang.Boolean"
    case CharKind => "java.lang.Character"
    case ByteKind => "java.lang.Byte"
    case ShortKind => "java.lang.Short"
    case IntKind => "java.lang.Integer"
    case FloatKind => "java.lang.Float"
    case LongKind => "java.lang.Long"
    case DoubleKind => "java.lang.Double"
  }

  /** `Class.wrapperByPrimitive ?: it`: a primitive type is replaced by its
      wrapper class, every other class is kept. */
  function WrapperByPrimitive(c: JClass): (r: JClass)
    ensures !r.Primitive?
    ensures !c.Primitive? ==> r == c
  {
    if c.Primitive? then Named(WrapperName(c.kind)) else c
  }

  /** `Class.getCanonicalName()`. */
  function CanonicalName(c: JClass): string {
    match c
    case Primitive(k) => PrimitiveName(k)
    case Named(n) => n
    case ArrayOf(e) => CanonicalName(e) + "[]"
  }

  /** A value as the JVM sees it when it is passed to `call`, stored in an
      annotation or handed to `equals`.
      - `Boxed`: a boxed primitive; `bits` is the primitive's bit pattern read as
        a natural number (so `Float` and `Double` compare as `Float.equals` does,
        by bits).
      - `ClassRef`: a `java.lang.Class` object; `KClassRef`: a `kotlin.reflect.KClass`
        whose `.java` is `c`.
      - `PrimArray`, `ObjArray`: arrays; `ref` is the array's identity, so two
        array values are the same object exactly when they are equal values.
      - `Obj`: any other object (an enum constant, say), identified by `ref`.
      - `Annot`: an annotation object of annotation class `cls`, with the values
        its members return. */
  datatype Value =
    | Null
    | Boxed(kind: PrimKind, bits: int)
    | Str(s: string)
    | ClassRef(c: JClass)
    | KClassRef(c: JClass)
    | PrimArray(elemKind: PrimKind, ref: nat, elems: seq<int>)
    | ObjArray(component: JClass, ref: nat, items: seq<Value>)
    | Obj(cls: JClass, ref: nat)
    | Annot(cls: JClass, fields: map<string, Value>)

  /** `v.getClass()` for a non-null value. */
  function RuntimeClass(v: Value): JClass
    requires v != Null
  {
    match v
    case Boxed(k, _) => Named(WrapperName(k))
    case Str(_) => StringClass
    case ClassRef(_) => Named("java.lang.Class")
    case KClassRef(_) => Named("kotlin.reflect.jvm.internal.KClassImpl")
    case PrimArray(k, _, _) => ArrayOf(Primitive(k))
    case ObjArray(e, _, _) => ArrayOf(e)
    case Obj(cls, _) => cls
    case Annot(cls, _) => cls
  }

  /** The facts of the running JVM that the model takes as given.
      - `supertypes[c]`: every proper supertype of class `c` (reflexive-transitive
        closure apart from `c` itself);
      - `hash(v)`: `v.hashCode()`, as the bits of the `Int`;
      - `show(v)`: `v.toString()`;
      - `kotlinName(c)`: `c.kotlin.qualifiedName` as a string template prints it. */
  datatype Jvm = Jvm(
    supertypes: map<JClass, set<JClass>>,
    hash: Value -> bv32,
    show: Value -> string,
    kotlinName: JClass -> string)

  /** `t.isAssignableFrom(c)`. */
  predicate IsSubclass(c: JClass, t: JClass, jvm: Jvm) {
    c == t || (c in jvm.supertypes && t in jvm.supertypes[c])
  }

  /** `t.isInstance(v)`: false for `null`, otherwise whether the runtime class of
      `v` is `t` or one of its subclasses. */
  predicate IsInstance(v: Value, t: JClass, jvm: Jvm) {
    v != Null && IsSubclass(RuntimeClass(v), t, jvm)
  }

  /** A boxed primitive is always an instance of the wrapper of its primitive
      type, whatever the rest of the hierarchy says. */
  lemma BoxedIsInstanceOfWrapper(k: PrimKind, bits: int, jvm: Jvm)
    ensures IsInstance(Boxed(k, bits), WrapperByPrimitive(Primitive(k)), jvm)
  {
  }

  /** `"$v"`: the text a string template gives a value. */
  function Show(v: Value, jvm: Jvm): string {
    match v
    case Null => "null"
    case Str(s) => s
    case _ => jvm.show(v)
  }
}
