/**
 * The duck-typed project validator, over a small model of JavaScript values,
 * and the typed project record the rest of the gallery works with.
 */
module Types {
  import opened Wrappers

  /** A JavaScript value, as far as the validator can observe it. */
  datatype Value =
    | Undefined
    | Null
    | Bool(b: bool)
    | Number(n: int)
    | BigInt(i: int)
    | Str(s: string)
    | Symbol(description: string)
    | Function
      /**
       * An array: its slots up to `length`, `None` for a hole (an index with no
       * element, as `new Array(3)` has), and the named (non-index) properties it carries.
       */
    | Array(elements: seq<Option<Value>>, props: map<string, Value>)
    | Object(props: map<string, Value>)

  /** The eight strings `typeof` can produce, one constructor each. */
  datatype TypeTag =
    | UndefinedType | ObjectType | BooleanType | NumberType | BigIntType | StringType | SymbolType | FunctionType

  function TypeOf(v: Value): TypeTag {
    match v
    case Undefined => UndefinedType
    case Null => ObjectType
    case Bool(_) => BooleanType
    case Number(_) => NumberType
    case BigInt(_) => BigIntType
    case Str(_) => StringType
    case Symbol(_) => SymbolType
    case Function => FunctionType
    case Array(_, _) => ObjectType
    case Object(_) => ObjectType
  }

  /** `key in v` for a non-null object (the only case the validator reaches). */
  predicate Has(v: Value, key: string)
    requires v.Array? || v.Object?
  {
    key in v.props
  }

  /** `v[key]` for a non-null object: a missing property reads as `undefined`. */
  function Get(v: Value, key: string): Value
    requires v.Array? || v.Object?
  {
    if key in v.props then v.props[key] else Undefined
  }

  /** `isProject` of `src/types.ts`, one conjunct per clause of its condition. */
  predicate IsProject(v: Value) {
    && TypeOf(v) == ObjectType
    && v != Null
    && Has(v, "title")
    && TypeOf(Get(v, "title")) == StringType
    && Has(v, "projectName")
    && TypeOf(Get(v, "projectName")) == StringType
    && (|| !Has(v, "external")
        || TypeOf(Get(v, "external")) == BooleanType
        || TypeOf(Get(v, "external")) == UndefinedType)
  }

  /** The shape a descriptor must have: string title and name, external absent or boolean or undefined. */
  ghost predicate DescriptorFields(props: map<string, Value>) {
    && "title" in props && props["title"].Str?
    && "projectName" in props && props["projectName"].Str?
    && ("external" in props ==> props["external"].Bool? || props["external"].Undefined?)
  }

  lemma IsProjectIff(v: Value)
    ensures IsProject(v) <==> (v.Object? || v.Array?) && DescriptorFields(v.props)
  {
  }

  /** `null` and every value whose `typeof` is not "object" are rejected. */
  lemma NonObjectsRejected(v: Value)
    requires !v.Object? && !v.Array?
    ensures !IsProject(v)
  {
  }

  /** The value with its own property `key` set to `x` (`v[key] = x`). */
  function WithProperty(v: Value, key: string, x: Value): (w: Value)
    requires v.Array? || v.Object?
    ensures (w.Array? || w.Object?) && w.props == v.props[key := x]
  {
    match v
    case Array(e, p) => Array(e, p[key := x])
    case Object(p) => Object(p[key := x])
  }

  /** Keys other than title, projectName and external, hideMenu among them, never change the verdict. */
  lemma OtherKeysIrrelevant(v: Value, key: string, x: Value)
    requires v.Array? || v.Object?
    requires key != "title" && key != "projectName" && key != "external"
    ensures IsProject(WithProperty(v, key, x)) == IsProject(v)
  {
  }

  /** A present `external` whose type is neither boolean nor undefined (a string, say) is rejected. */
  lemma BadExternalRejected(v: Value)
    requires v.Array? || v.Object?
    requires "external" in v.props && !v.props["external"].Bool? && !v.props["external"].Undefined?
    ensures !IsProject(v)
  {
  }

  /** `elements.every(isProject)`: `every` visits the indices below `length` and skips holes. */
  predicate AllProjects(elements: seq<Option<Value>>) {
    elements == [] || ((elements[0].None? || IsProject(elements[0].value)) && AllProjects(elements[1..]))
  }

  /** `isProjectArray`. */
  predicate IsProjectArray(v: Value) {
    v.Array? && AllProjects(v.elements)
  }

  lemma {:induction false} AllProjectsIff(elements: seq<Option<Value>>)
    ensures AllProjects(elements) <==>
      forall i :: 0 <= i < |elements| && elements[i].Some? ==> IsProject(elements[i].value)
    decreases |elements|
  {
    if elements != [] {
      AllProjectsIff(elements[1..]);
      assert forall i :: 1 <= i < |elements| ==> elements[i] == elements[1..][i - 1];
    }
  }

  /**
   * An array is accepted exactly when each element it holds is a project;
   * holes are not looked at, so the empty array and an array of holes only
   * (`new Array(3)`) are accepted.
   */
  lemma IsProjectArrayIff(v: Value)
    ensures IsProjectArray(v) <==>
      v.Array? && forall i :: 0 <= i < |v.elements| && v.elements[i].Some? ==> IsProject(v.elements[i].value)
    ensures IsProjectArray(Array([], map[]))
    ensures IsProjectArray(Array([None, None, None], map[]))
  {
    if v.Array? { AllProjectsIff(v.elements); }
    AllProjectsIff([None, None, None]);
  }

  /**
   * A project descriptor as the components read it. An absent or undefined flag
   * reads as false; the components test both flags for truthiness.
   */
  datatype Project = Project(title: string, projectName: string, external: bool, hideMenu: bool)

  /** JavaScript truthiness (NaN is not modelled: numbers are integers here). */
  predicate Truthy(v: Value) {
    match v
    case Undefined => false
    case Null => false
    case Bool(b) => b
    case Number(n) => n != 0
    case BigInt(i) => i != 0
    case Str(s) => s != ""
    case _ => true
  }

  /**
   * The record a validated value stands for. `hideMenu` is not checked by
   * `isProject`; the components use its truthiness, and so does this view.
   */
  function ToProject(v: Value): (p: Project)
    requires IsProject(v)
    ensures Str(p.title) == Get(v, "title") && Str(p.projectName) == Get(v, "projectName")
    ensures p.external <==> Get(v, "external") == Bool(true)
    ensures p.hideMenu <==> Truthy(Get(v, "hideMenu"))
  {
    Project(Get(v, "title").s, Get(v, "projectName").s,
            Truthy(Get(v, "external")), Truthy(Get(v, "hideMenu")))
  }

  /** The bundled registry as the JavaScript values it is written as. */
  const AboutMeValue: Value :=
    Object(map["title" := Str("About Me"), "projectName" := Str("AboutMe"), "hideMenu" := Bool(true)])
  const PerspectiveValue: Value :=
    Object(map["title" := Str("Perspective"), "projectName" := Str("perspective")])
  const PederPongValue: Value :=
    Object(map["title" := Str("PederPong2.0"), "projectName" := Str("pederpong"), "external" := Bool(true)])
  const RegistryValue: Value := Array([Some(AboutMeValue), Some(PerspectiveValue), Some(PederPongValue)], map[])

  /** The bundled registry as project records. */
  const Registry: seq<Project> := [
    Project("About Me", "AboutMe", false, true),
    Project("Perspective", "perspective", false, false),
    Project("PederPong2.0", "pederpong", true, false)
  ]

  lemma KeysDistinct()
    ensures "external" != "hideMenu" && "external" != "title" && "external" != "projectName"
    ensures "hideMenu" != "title" && "hideMenu" != "projectName" && "title" != "projectName"
  {
  }

  /** The bundled registry passes the validator and reads as the three records above. */
  lemma RegistryIsValid()
    ensures IsProjectArray(RegistryValue)
    ensures |RegistryValue.elements| == |Registry|
    ensures forall i :: 0 <= i < |Registry| ==>
      RegistryValue.elements[i].Some? && ToProject(RegistryValue.elements[i].value) == Registry[i]
  {
    KeysDistinct();
    assert IsProject(AboutMeValue) && ToProject(AboutMeValue) == Registry[0];
    assert IsProject(PerspectiveValue) && ToProject(PerspectiveValue) == Registry[1];
    assert IsProject(PederPongValue) && ToProject(PederPongValue) == Registry[2];
    IsProjectArrayIff(RegistryValue);
  }
}
