/** Types and values as the program asset sees them through the Udon symbol table and heap. */
module UdonValues {

  datatype Option<+T> = None | Some(value: T)

  /** The managed types the model tells apart. */
  datatype UType =
    | GameObject
    | UdonBehaviour
    | Transform
    | Int32
    | Boolean
    | String
    | Object
    | UserBehaviour(className: string)  // a class deriving from UdonSharpBehaviour
    | OtherType(typeName: string)       // any other reference type
    | ArrayOf(element: UType)

  /** A heap or inspector value. `Array` is an array held as a value (a jagged-array element). */
  datatype Value =
    | Null
    | Bool(b: bool)
    | Int(i: int)
    | Str(s: string)
    | Ref(target: object)
    | Array(elements: seq<Value>)

  /** `v` is a value a variable declared with type `t` can hold: reference types, strings and
      arrays included, may hold null. */
  predicate IsValueOf(v: Value, t: UType)
  {
    match t
    case Int32 => v.Int? && -0x8000_0000 <= v.i < 0x8000_0000
    case Boolean => v.Bool?
    case String => v.Null? || v.Str?
    case ArrayOf(_) => v.Null? || v.Array?
    case Object => true
    case _ => v.Null? || v.Ref?
  }

  /** default(T): what a freshly created array of element type `t` holds in every slot. It is a
      value of type `t`, the zero of that type, and null exactly for the reference types. */
  function DefaultOf(t: UType): (r: Value)
    ensures IsValueOf(r, t)
    ensures r == Null || r == Int(0) || r == Bool(false)
    ensures r == Null <==> !(t.Int32? || t.Boolean?)
  {
    match t
    case Int32 => Int(0)
    case Boolean => Bool(false)
    case _ => Null
  }

  /** The scene-object types an UdonBehaviour rebinds to itself when their public variable is null. */
  predicate IsSceneReferenceType(t: UType)
  {
    t == GameObject || t == UdonBehaviour || t == Transform
  }
}
