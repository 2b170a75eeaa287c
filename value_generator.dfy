/**
 * The default mock value proposed for a method's return type: fixed literals
 * for the primitive and boxed types, one-element samples for collections,
 * and a field map for project classes, with a set of classes in progress
 * that stops generation from looping on a class that refers to itself.
 *
 * The functions below are the specification; `MockValueGenerator` is the
 * generator itself, whose in-progress set is updated in place and whose maps
 * are filled in loops, and whose methods are proved to compute the functions
 * and to leave the in-progress set as they found it.
 */
module ValueGenerator {
  import opened JavaText
  import opened Psi
  import opened JsonValue

  /** What a generator returns: a fixed text, or the JSON serialization of a value. */
  datatype Generated = Text(text: string) | ToJson(value: JValue)

  predicate IsListName(q: JStr) {
    q == Some("java.util.List") || q == Some("java.util.ArrayList") || q == Some("java.util.LinkedList")
  }

  predicate IsSetName(q: JStr) {
    q == Some("java.util.Set") || q == Some("java.util.HashSet") || q == Some("java.util.LinkedHashSet")
  }

  predicate IsMapName(q: JStr) {
    q == Some("java.util.Map") || q == Some("java.util.HashMap") || q == Some("java.util.LinkedHashMap")
  }

  /** A class of the project rather than of the JDK: named, and not under `java.`. */
  predicate IsCustomName(q: JStr) {
    q.Some? && !StartsWith(q.value, "java.")
  }

  /** A field that takes part in object generation: neither static nor final. */
  predicate Kept(f: PsiField) {
    !f.isStatic && !f.isFinal
  }

  /** A type that resolves to a project class. */
  predicate IsNestedObject(u: Universe, t: PsiType) {
    t.ClassType? && t.ref in u && IsCustomName(u[t.ref].qualifiedName)
  }

  /**
   * `getDefaultValueObject`: the sample value for a type while the classes
   * in `inProgress` are being generated.
   */
  function DefaultObject(u: Universe, t: PsiType, inProgress: set<string>): (r: JValue)
    ensures r.JString? <==> PresentableText(t) == "String"
    decreases Budget(u, inProgress), 1, Size(t)
  {
    var name := PresentableText(t);
    if name == "int" || name == "Integer" then JInt(1)
    else if name == "long" || name == "Long" then JLong(1)
    else if name == "double" || name == "Double" then JDouble("1.0")
    else if name == "float" || name == "Float" then JFloat("1.0")
    else if name == "boolean" || name == "Boolean" then JBool(true)
    else if name == "String" then JString("sample_value")
    else
      match t
      case ClassType(_, ref, params) =>
        if ref !in u then JNull
        else
          var q := u[ref].qualifiedName;
          if q == Some("java.util.List") || q == Some("java.util.ArrayList") then
            ParamsSmaller(t);
            if |params| > 0 then JArray([DefaultObject(u, params[0], inProgress)]) else JArray([])
          else if q == Some("java.util.Map") || q == Some("java.util.HashMap") then JObject([])
          else if IsCustomName(q) && q.value !in inProgress then
            EnteringUsesBudget(u, inProgress, ref);
            JObject(NestedFields(u, u[ref].fields, inProgress + {q.value}))
          else JNull
      case ArrayType(c) => JArray([DefaultObject(u, c, inProgress)])
      case PrimitiveType(_) => JNull
  }

  /**
   * The field map of a class nested in a sample value: a field whose type is
   * itself a project class is set to null instead of being expanded.
   */
  function NestedFields(u: Universe, fs: seq<PsiField>, inProgress: set<string>): seq<Entry>
    decreases Budget(u, inProgress), 2, |fs|
  {
    if fs == [] then []
    else
      var acc := NestedFields(u, fs[..|fs| - 1], inProgress);
      var f := fs[|fs| - 1];
      if !Kept(f) then acc
      else if IsNestedObject(u, f.ftype) then Put(acc, JString(f.name), JNull)
      else Put(acc, JString(f.name), DefaultObject(u, f.ftype, inProgress))
  }

  /** The field map of a top-level object: every kept field under its name. */
  function ObjectFields(u: Universe, fs: seq<PsiField>, inProgress: set<string>): seq<Entry>
  {
    if fs == [] then []
    else
      var acc := ObjectFields(u, fs[..|fs| - 1], inProgress);
      var f := fs[|fs| - 1];
      if !Kept(f) then acc
      else Put(acc, JString(f.name), DefaultObject(u, f.ftype, inProgress))
  }

  /** A getter name: `getX` or `isX` with something after the prefix. */
  predicate IsGetterName(n: string) {
    (StartsWith(n, "get") && |n| > 3) || (StartsWith(n, "is") && |n| > 2)
  }

  /** The property a getter reads: the rest of the name after `get` or `is`, first letter lowered. */
  function GetterField(n: string): (r: string)
    requires IsGetterName(n)
    ensures StartsWith(n, "get") ==> |n| > 3 && r == [LowerAscii(n[3])] + n[4..]
    ensures !StartsWith(n, "get") ==> StartsWith(n, "is") && r == [LowerAscii(n[2])] + n[3..]
  {
    assert StartsWith(n, "get") ==> n[1] == 'e';
    assert StartsWith(n, "is") ==> n[1] == 's';
    if StartsWith(n, "get") then [LowerAscii(n[3])] + n[4..] else [LowerAscii(n[2])] + n[3..]
  }

  /** A method that getter inference uses: a getter name and a return type. */
  predicate IsUsableGetter(m: PsiMethod) {
    IsGetterName(m.name) && m.returnType.Some?
  }

  /** `m` is a usable getter of property `n`. */
  predicate GetterOf(m: PsiMethod, n: string) {
    IsUsableGetter(m) && GetterField(m.name) == n
  }

  /** The field map inferred from getters: a property is only added if it is not there yet. */
  function GetterEntries(u: Universe, ms: seq<PsiMethod>, inProgress: set<string>): seq<Entry>
  {
    if ms == [] then []
    else
      var acc := GetterEntries(u, ms[..|ms| - 1], inProgress);
      var m := ms[|ms| - 1];
      if IsUsableGetter(m) && Lookup(acc, JString(GetterField(m.name))).None? then
        Put(acc, JString(GetterField(m.name)), DefaultObject(u, m.returnType.value, inProgress))
      else acc
  }

  /**
   * `generateObjectJson`: "null" for a class without a name or already in
   * progress; otherwise the field map, or the getter map when no field is kept.
   */
  function ObjectJson(u: Universe, cls: PsiClass, inProgress: set<string>): (r: Generated)
    ensures r == Text("null") <==> cls.qualifiedName.None? || cls.qualifiedName.value in inProgress
    ensures r != Text("null") ==>
      var inner := inProgress + {cls.qualifiedName.value};
      var fields := ObjectFields(u, cls.fields, inner);
      && (fields != [] ==> r == ToJson(JObject(fields)))
      && (fields == [] ==> r == ToJson(JObject(GetterEntries(u, cls.methods, inner))))
  {
    if cls.qualifiedName.None? || cls.qualifiedName.value in inProgress then Text("null")
    else
      var inner := inProgress + {cls.qualifiedName.value};
      var fields := ObjectFields(u, cls.fields, inner);
      ToJson(JObject(if fields != [] then fields else GetterEntries(u, cls.methods, inner)))
  }

  /**
   * `generateListMockValue`: "[]" without a type argument; otherwise one
   * sample element, repeated once more when it is a map.
   */
  function ListValue(u: Universe, t: PsiType, inProgress: set<string>): (r: Generated)
    requires t.ClassType?
    ensures |t.params| == 0 <==> r == Text("[]")
    ensures |t.params| > 0 ==> r.ToJson? && r.value.JArray? && 1 <= |r.value.items| <= 2
    ensures |t.params| > 0 ==> forall e :: e in r.value.items ==> e == DefaultObject(u, t.params[0], inProgress)
    ensures |t.params| > 0 ==> (|r.value.items| == 2 <==> DefaultObject(u, t.params[0], inProgress).JObject?)
  {
    if |t.params| > 0 then
      var e := DefaultObject(u, t.params[0], inProgress);
      ToJson(JArray(if e.JObject? then [e, e] else [e]))
    else Text("[]")
  }

  /** `generateMapMockValue`: "{}" with fewer than two type arguments; otherwise exactly one entry. */
  function MapValue(u: Universe, t: PsiType, inProgress: set<string>): (r: Generated)
    requires t.ClassType?
    ensures |t.params| < 2 <==> r == Text("{}")
    ensures |t.params| >= 2 ==> r.ToJson? && r.value.JObject? && |r.value.entries| == 1
    ensures |t.params| >= 2 ==>
      r.value.entries[0] == Entry(DefaultObject(u, t.params[0], inProgress), DefaultObject(u, t.params[1], inProgress))
  {
    if |t.params| >= 2 then
      ToJson(JObject(Put([], DefaultObject(u, t.params[0], inProgress), DefaultObject(u, t.params[1], inProgress))))
    else Text("{}")
  }

  /** `generateMockValueInternal`. */
  function GenerateInternal(u: Universe, t: PsiType, inProgress: set<string>): (r: Generated)
    ensures r == Text("void") <==> PresentableText(t) == "void"
    ensures r.ToJson? ==> r.value.JArray? || r.value.JObject?
  {
    var name := PresentableText(t);
    if name == "int" || name == "Integer" then Text("1")
    else if name == "long" || name == "Long" then Text("1L")
    else if name == "double" || name == "Double" then Text("1.0")
    else if name == "float" || name == "Float" then Text("1.0f")
    else if name == "boolean" || name == "Boolean" then Text("true")
    else if name == "String" then Text("\"sample_string\"")
    else if name == "void" then Text("void")
    else
      match t
      case ClassType(_, ref, _) =>
        if ref !in u then Text("null")
        else
          var q := u[ref].qualifiedName;
          if IsListName(q) || IsSetName(q) then ListValue(u, t, inProgress)
          else if IsMapName(q) then MapValue(u, t, inProgress)
          else if IsCustomName(q) then ObjectJson(u, u[ref], inProgress)
          else Text("null")
      case ArrayType(c) => ToJson(JArray([DefaultObject(u, c, inProgress)]))
      case PrimitiveType(_) => Text("null")
  }

  /** `generateMockValue`: "null" for a missing type; otherwise generation with nothing in progress. */
  function Generate(u: Universe, t: Option<PsiType>): (r: Generated)
    ensures t.None? ==> r == Text("null")
    ensures r == Text("void") <==> t.Some? && PresentableText(t.value) == "void"
  {
    if t.None? then Text("null") else GenerateInternal(u, t.value, {})
  }

  /** The fixed literals for primitive and boxed types, and for void. */
  lemma FixedLiterals(u: Universe, t: PsiType)
    ensures PresentableText(t) in {"int", "Integer"} ==> Generate(u, Some(t)) == Text("1")
    ensures PresentableText(t) in {"long", "Long"} ==> Generate(u, Some(t)) == Text("1L")
    ensures PresentableText(t) in {"double", "Double"} ==> Generate(u, Some(t)) == Text("1.0")
    ensures PresentableText(t) in {"float", "Float"} ==> Generate(u, Some(t)) == Text("1.0f")
    ensures PresentableText(t) in {"boolean", "Boolean"} ==> Generate(u, Some(t)) == Text("true")
    ensures PresentableText(t) == "String" ==> Generate(u, Some(t)) == Text("\"sample_string\"")
    ensures PresentableText(t) == "void" ==> Generate(u, Some(t)) == Text("void")
  {
  }

  /**
   * A top-level call starts with nothing in progress, so a named project
   * class is always expanded there: its value is its object, never "null".
   */
  lemma TopLevelExpandsProjectClass(u: Universe, t: PsiType)
    requires t.ClassType? && t.ref in u && IsCustomName(u[t.ref].qualifiedName)
    requires PresentableText(t) !in {"int", "Integer", "long", "Long", "double", "Double"}
    requires PresentableText(t) !in {"float", "Float", "boolean", "Boolean", "String", "void"}
    ensures Generate(u, Some(t)) == ObjectJson(u, u[t.ref], {})
    ensures Generate(u, Some(t)).ToJson? && Generate(u, Some(t)).value.JObject?
  {
    var q := u[t.ref].qualifiedName;
    assert !IsListName(q) && !IsSetName(q) && !IsMapName(q) by {
      assert StartsWith("java.util.List", "java.") && StartsWith("java.util.ArrayList", "java.");
      assert StartsWith("java.util.LinkedList", "java.") && StartsWith("java.util.Set", "java.");
      assert StartsWith("java.util.HashSet", "java.") && StartsWith("java.util.LinkedHashSet", "java.");
      assert StartsWith("java.util.Map", "java.") && StartsWith("java.util.HashMap", "java.");
      assert StartsWith("java.util.LinkedHashMap", "java.");
    }
  }

  /** A class already in progress is not expanded again: its sample value is null. */
  lemma InProgressClassIsNull(u: Universe, t: PsiType, inProgress: set<string>)
    requires t.ClassType? && t.ref in u
    requires u[t.ref].qualifiedName.Some? && u[t.ref].qualifiedName.value in inProgress
    requires !IsListName(u[t.ref].qualifiedName) && !IsMapName(u[t.ref].qualifiedName)
    requires PresentableText(t) !in {"int", "Integer", "long", "Long", "double", "Double"}
    requires PresentableText(t) !in {"float", "Float", "boolean", "Boolean", "String"}
    ensures DefaultObject(u, t, inProgress) == JNull
  {
  }

  /** Every kept field appears in the top-level field map under its name. */
  lemma {:induction false} KeptFieldPresent(u: Universe, fs: seq<PsiField>, inProgress: set<string>, i: nat)
    requires i < |fs| && Kept(fs[i])
    ensures Lookup(ObjectFields(u, fs, inProgress), JString(fs[i].name)).Some?
  {
    var init := fs[..|fs| - 1];
    var f := fs[|fs| - 1];
    var acc := ObjectFields(u, init, inProgress);
    if i < |fs| - 1 {
      assert init[i] == fs[i];
      KeptFieldPresent(u, init, inProgress, i);
      if Kept(f) && f.name != fs[i].name {
        PutOthers(acc, JString(f.name), DefaultObject(u, f.ftype, inProgress), JString(fs[i].name));
      }
    }
  }

  /** Static and final fields are skipped: a name no kept field has is not a key. */
  lemma {:induction false} SkippedFieldAbsent(u: Universe, fs: seq<PsiField>, inProgress: set<string>, n: string)
    requires forall i :: 0 <= i < |fs| && fs[i].name == n ==> !Kept(fs[i])
    ensures Lookup(ObjectFields(u, fs, inProgress), JString(n)).None?
  {
    if fs != [] {
      var init := fs[..|fs| - 1];
      var f := fs[|fs| - 1];
      forall i | 0 <= i < |init| && init[i].name == n
        ensures !Kept(init[i])
      {
        assert init[i] == fs[i];
      }
      SkippedFieldAbsent(u, init, inProgress, n);
      if Kept(f) {
        PutOthers(ObjectFields(u, init, inProgress), JString(f.name), DefaultObject(u, f.ftype, inProgress), JString(n));
      }
    }
  }

  /** Every usable getter's property is a key of the getter map. */
  lemma {:induction false} GetterPresent(u: Universe, ms: seq<PsiMethod>, inProgress: set<string>, i: nat, n: string)
    requires i < |ms| && GetterOf(ms[i], n)
    ensures Lookup(GetterEntries(u, ms, inProgress), JString(n)).Some?
  {
    var init := ms[..|ms| - 1];
    var m := ms[|ms| - 1];
    var acc := GetterEntries(u, init, inProgress);
    if i < |ms| - 1 {
      assert init[i] == ms[i];
      GetterPresent(u, init, inProgress, i, n);
      if IsUsableGetter(m) && Lookup(acc, JString(GetterField(m.name))).None? {
        PutOthers(acc, JString(GetterField(m.name)), DefaultObject(u, m.returnType.value, inProgress), JString(n));
      }
    }
  }

  /** A property no usable getter reads is not a key of the getter map. */
  lemma {:induction false} NoGetterAbsent(u: Universe, ms: seq<PsiMethod>, inProgress: set<string>, n: string)
    requires forall i :: 0 <= i < |ms| ==> !GetterOf(ms[i], n)
    ensures Lookup(GetterEntries(u, ms, inProgress), JString(n)).None?
  {
    if ms != [] {
      var init := ms[..|ms| - 1];
      var m := ms[|ms| - 1];
      forall i | 0 <= i < |init|
        ensures !GetterOf(init[i], n)
      {
        assert init[i] == ms[i];
      }
      NoGetterAbsent(u, init, inProgress, n);
      var acc := GetterEntries(u, init, inProgress);
      if IsUsableGetter(m) && Lookup(acc, JString(GetterField(m.name))).None? {
        PutOthers(acc, JString(GetterField(m.name)), DefaultObject(u, m.returnType.value, inProgress), JString(n));
      }
    }
  }

  /** Without a kept field the field map is empty. */
  lemma {:induction false} NoKeptFieldIsEmpty(u: Universe, fs: seq<PsiField>, inProgress: set<string>)
    requires forall i :: 0 <= i < |fs| ==> !Kept(fs[i])
    ensures ObjectFields(u, fs, inProgress) == []
  {
    if fs != [] {
      NoKeptFieldIsEmpty(u, fs[..|fs| - 1], inProgress);
    }
  }

  /**
   * Getters are only read when no field is kept: a class with a kept field is
   * shown by its fields alone, so a property only a getter reads is absent.
   */
  lemma FieldsHideGetters(u: Universe, cls: PsiClass, inProgress: set<string>, i: nat, n: string)
    requires cls.qualifiedName.Some? && cls.qualifiedName.value !in inProgress
    requires i < |cls.fields| && Kept(cls.fields[i])
    requires forall j :: 0 <= j < |cls.fields| && cls.fields[j].name == n ==> !Kept(cls.fields[j])
    ensures ObjectJson(u, cls, inProgress).ToJson?
    ensures Lookup(ObjectJson(u, cls, inProgress).value.entries, JString(n)).None?
  {
    var inner := inProgress + {cls.qualifiedName.value};
    KeptFieldPresent(u, cls.fields, inner, i);
    SkippedFieldAbsent(u, cls.fields, inner, n);
  }

  /** A class without a kept field is shown by its getters: each usable getter's property appears. */
  lemma GettersWhenNoField(u: Universe, cls: PsiClass, inProgress: set<string>, i: nat, n: string)
    requires cls.qualifiedName.Some? && cls.qualifiedName.value !in inProgress
    requires forall j :: 0 <= j < |cls.fields| ==> !Kept(cls.fields[j])
    requires i < |cls.methods| && GetterOf(cls.methods[i], n)
    ensures ObjectJson(u, cls, inProgress).ToJson?
    ensures Lookup(ObjectJson(u, cls, inProgress).value.entries, JString(n)).Some?
  {
    var inner := inProgress + {cls.qualifiedName.value};
    NoKeptFieldIsEmpty(u, cls.fields, inner);
    GetterPresent(u, cls.methods, inner, i, n);
  }

  /**
   * The first getter wins: a property's value comes from the first usable
   * getter naming it (`getName` before a later `isName`, say).
   */
  lemma {:induction false} FirstGetterWins(u: Universe, ms: seq<PsiMethod>, inProgress: set<string>, i: nat)
    requires i < |ms| && IsUsableGetter(ms[i])
    requires forall j :: 0 <= j < i ==> !GetterOf(ms[j], GetterField(ms[i].name))
    ensures Lookup(GetterEntries(u, ms, inProgress), JString(GetterField(ms[i].name)))
      == Some(DefaultObject(u, ms[i].returnType.value, inProgress))
  {
    var init := ms[..|ms| - 1];
    var m := ms[|ms| - 1];
    var n := GetterField(ms[i].name);
    var acc := GetterEntries(u, init, inProgress);
    if i < |ms| - 1 {
      assert init[i] == ms[i];
      FirstGetterWins(u, init, inProgress, i);
      if IsUsableGetter(m) && Lookup(acc, JString(GetterField(m.name))).None? {
        var v := DefaultObject(u, m.returnType.value, inProgress);
        assert GetterEntries(u, ms, inProgress) == Put(acc, JString(GetterField(m.name)), v);
        PutOthers(acc, JString(GetterField(m.name)), v, JString(n));
      } else {
        assert GetterEntries(u, ms, inProgress) == acc;
      }
    } else {
      forall j | 0 <= j < |init|
        ensures !GetterOf(init[j], n)
      {
        assert init[j] == ms[j];
      }
      NoGetterAbsent(u, init, inProgress, n);
      var v := DefaultObject(u, m.returnType.value, inProgress);
      assert GetterEntries(u, ms, inProgress) == Put(acc, JString(n), v);
    }
  }

  /**
   * The recursion is cut at the second level: a kept field whose type is a
   * project class, and which no later kept field of the same name
   * overwrites, is null in a nested object.
   */
  lemma {:induction false} NestedObjectFieldIsNull(u: Universe, fs: seq<PsiField>, inProgress: set<string>, i: nat)
    requires i < |fs| && Kept(fs[i]) && IsNestedObject(u, fs[i].ftype)
    requires forall j :: i < j < |fs| && Kept(fs[j]) ==> fs[j].name != fs[i].name
    ensures Lookup(NestedFields(u, fs, inProgress), JString(fs[i].name)) == Some(JNull)
  {
    if i < |fs| - 1 {
      var init := fs[..|fs| - 1];
      var f := fs[|fs| - 1];
      assert init[i] == fs[i];
      NestedObjectFieldIsNull(u, init, inProgress, i);
      var acc := NestedFields(u, init, inProgress);
      if Kept(f) {
        var v := if IsNestedObject(u, f.ftype) then JNull else DefaultObject(u, f.ftype, inProgress);
        PutOthers(acc, JString(f.name), v, JString(fs[i].name));
      }
    }
  }

  /** The generator; the JDK's static in-progress set is a field of one instance. */
  class MockValueGenerator {
    const universe: Universe
    var processingTypes: set<string>

    constructor (u: Universe)
      ensures universe == u && processingTypes == {}
    {
      universe := u;
      processingTypes := {};
    }

    /** `generateMockValue`: clears the in-progress set, then generates. */
    method GenerateMockValue(t: Option<PsiType>) returns (r: Generated)
      modifies this`processingTypes
      ensures r == Generate(universe, t)
      ensures t.None? ==> processingTypes == old(processingTypes)
      ensures t.Some? ==> processingTypes == {}
    {
      if t.None? {
        return Text("null");
      }
      processingTypes := {};
      r := GenerateMockValueInternal(t.value);
    }

    /** `generateMockValueInternal`. */
    method GenerateMockValueInternal(t: PsiType) returns (r: Generated)
      modifies this`processingTypes
      ensures r == GenerateInternal(universe, t, old(processingTypes))
      ensures processingTypes == old(processingTypes)
    {
      var name := PresentableText(t);
      if name == "int" || name == "Integer" {
        return Text("1");
      }
      if name == "long" || name == "Long" {
        return Text("1L");
      }
      if name == "double" || name == "Double" {
        return Text("1.0");
      }
      if name == "float" || name == "Float" {
        return Text("1.0f");
      }
      if name == "boolean" || name == "Boolean" {
        return Text("true");
      }
      if name == "String" {
        return Text("\"sample_string\"");
      }
      if name == "void" {
        return Text("void");
      }
      match t {
        case ClassType(_, ref, _) =>
          if ref in universe {
            var q := universe[ref].qualifiedName;
            if IsListName(q) || IsSetName(q) {
              r := GenerateListMockValue(t);
              return;
            }
            if IsMapName(q) {
              r := GenerateMapMockValue(t);
              return;
            }
            if IsCustomName(q) {
              r := GenerateObjectJson(universe[ref]);
              return;
            }
          }
          r := Text("null");
        case ArrayType(c) =>
          var sample := GetDefaultValueObject(c);
          r := ToJson(JArray([sample]));
        case PrimitiveType(_) =>
          r := Text("null");
      }
    }

    /** `generateListMockValue`. */
    method GenerateListMockValue(t: PsiType) returns (r: Generated)
      requires t.ClassType?
      modifies this`processingTypes
      ensures r == ListValue(universe, t, old(processingTypes))
      ensures processingTypes == old(processingTypes)
    {
      if |t.params| > 0 {
        var sample := GetDefaultValueObject(t.params[0]);
        var mockList := [sample];
        if sample.JObject? {
          mockList := mockList + [sample];
        }
        return ToJson(JArray(mockList));
      }
      return Text("[]");
    }

    /** `generateMapMockValue`. */
    method GenerateMapMockValue(t: PsiType) returns (r: Generated)
      requires t.ClassType?
      modifies this`processingTypes
      ensures r == MapValue(universe, t, old(processingTypes))
      ensures processingTypes == old(processingTypes)
    {
      if |t.params| >= 2 {
        var sampleKey := GetDefaultValueObject(t.params[0]);
        var sampleValue := GetDefaultValueObject(t.params[1]);
        return ToJson(JObject(Put([], sampleKey, sampleValue)));
      }
      return Text("{}");
    }

    /** `generateObjectJson`: the class is in progress while its fields and getters are generated. */
    method GenerateObjectJson(cls: PsiClass) returns (r: Generated)
      modifies this`processingTypes
      ensures r == ObjectJson(universe, cls, old(processingTypes))
      ensures processingTypes == old(processingTypes)
    {
      var q := cls.qualifiedName;
      if q.None? || q.value in processingTypes {
        return Text("null");
      }
      processingTypes := processingTypes + {q.value};
      var jsonMap := ObjectFieldsLoop(cls.fields);
      if jsonMap == [] {
        jsonMap := GetterLoop(cls.methods);
      }
      processingTypes := processingTypes - {q.value};
      r := ToJson(JObject(jsonMap));
    }

    /** The field loop of `generateObjectJson`. */
    method ObjectFieldsLoop(fields: seq<PsiField>) returns (jsonMap: seq<Entry>)
      modifies this`processingTypes
      ensures jsonMap == ObjectFields(universe, fields, old(processingTypes))
      ensures processingTypes == old(processingTypes)
    {
      jsonMap := [];
      var i := 0;
      while i < |fields|
        invariant 0 <= i <= |fields|
        invariant processingTypes == old(processingTypes)
        invariant jsonMap == ObjectFields(universe, fields[..i], processingTypes)
      {
        var field := fields[i];
        assert fields[..i + 1][..i] == fields[..i];
        if Kept(field) {
          var defaultValue := GetDefaultValueObject(field.ftype);
          jsonMap := Put(jsonMap, JString(field.name), defaultValue);
        }
        i := i + 1;
      }
      assert fields[..i] == fields;
    }

    /** The getter loop of `generateObjectJson`. */
    method GetterLoop(methods: seq<PsiMethod>) returns (jsonMap: seq<Entry>)
      modifies this`processingTypes
      ensures jsonMap == GetterEntries(universe, methods, old(processingTypes))
      ensures processingTypes == old(processingTypes)
    {
      jsonMap := [];
      var i := 0;
      while i < |methods|
        invariant 0 <= i <= |methods|
        invariant processingTypes == old(processingTypes)
        invariant jsonMap == GetterEntries(universe, methods[..i], processingTypes)
      {
        var m := methods[i];
        assert methods[..i + 1][..i] == methods[..i];
        if IsGetterName(m.name) {
          var fieldName := GetterField(m.name);
          if m.returnType.Some? && Lookup(jsonMap, JString(fieldName)).None? {
            var v := GetDefaultValueObject(m.returnType.value);
            jsonMap := Put(jsonMap, JString(fieldName), v);
          }
        }
        i := i + 1;
      }
      assert methods[..i] == methods;
    }

    /** `getDefaultValueObject`; a project class is in progress while its fields are generated. */
    method GetDefaultValueObject(t: PsiType) returns (v: JValue)
      modifies this`processingTypes
      decreases Budget(universe, processingTypes), 1, Size(t)
      ensures v == DefaultObject(universe, t, old(processingTypes))
      ensures processingTypes == old(processingTypes)
    {
      var name := PresentableText(t);
      if name == "int" || name == "Integer" {
        return JInt(1);
      }
      if name == "long" || name == "Long" {
        return JLong(1);
      }
      if name == "double" || name == "Double" {
        return JDouble("1.0");
      }
      if name == "float" || name == "Float" {
        return JFloat("1.0");
      }
      if name == "boolean" || name == "Boolean" {
        return JBool(true);
      }
      if name == "String" {
        return JString("sample_value");
      }
      match t {
        case ClassType(_, ref, params) =>
          if ref in universe {
            var q := universe[ref].qualifiedName;
            if q == Some("java.util.List") || q == Some("java.util.ArrayList") {
              ParamsSmaller(t);
              if |params| > 0 {
                var element := GetDefaultValueObject(params[0]);
                return JArray([element]);
              }
              return JArray([]);
            }
            if q == Some("java.util.Map") || q == Some("java.util.HashMap") {
              return JObject([]);
            }
            if IsCustomName(q) && q.value !in processingTypes {
              EnteringUsesBudget(universe, processingTypes, ref);
              processingTypes := processingTypes + {q.value};
              var objMap := NestedFieldsLoop(universe[ref].fields);
              processingTypes := processingTypes - {q.value};
              return JObject(objMap);
            }
          }
          v := JNull;
        case ArrayType(c) =>
          var element := GetDefaultValueObject(c);
          v := JArray([element]);
        case PrimitiveType(_) =>
          v := JNull;
      }
    }

    /** The field loop of `getDefaultValueObject`: project-class fields are set to null. */
    method NestedFieldsLoop(fields: seq<PsiField>) returns (objMap: seq<Entry>)
      modifies this`processingTypes
      decreases Budget(universe, processingTypes), 2, |fields|
      ensures objMap == NestedFields(universe, fields, old(processingTypes))
      ensures processingTypes == old(processingTypes)
    {
      objMap := [];
      var i := 0;
      while i < |fields|
        invariant 0 <= i <= |fields|
        invariant processingTypes == old(processingTypes)
        invariant objMap == NestedFields(universe, fields[..i], processingTypes)
      {
        var field := fields[i];
        assert fields[..i + 1][..i] == fields[..i];
        if Kept(field) {
          if IsNestedObject(universe, field.ftype) {
            objMap := Put(objMap, JString(field.name), JNull);
          } else {
            var defaultValue := GetDefaultValueObject(field.ftype);
            objMap := Put(objMap, JString(field.name), defaultValue);
          }
        }
        i := i + 1;
      }
      assert fields[..i] == fields;
    }
  }
}
