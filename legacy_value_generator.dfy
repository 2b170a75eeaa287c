/**
 * The earlier default-value generator: zero literals, "[]" and "{}" chosen
 * from the presentable type name, and one level of object fields in which
 * every nested object is null. It keeps no state between calls.
 */
module LegacyValueGenerator {
  import opened JavaText
  import opened Psi
  import opened JsonValue
  import ValueGenerator

  type Generated = ValueGenerator.Generated

  /** A presentable name the generator reads as a list or set: `List<`, `ArrayList<`, `Set<`, `HashSet<`. */
  predicate IsCollectionText(name: string) {
    StartsWith(name, "List<") || StartsWith(name, "ArrayList<")
    || StartsWith(name, "Set<") || StartsWith(name, "HashSet<")
  }

  /** A presentable name the generator reads as a map: `Map<` or `HashMap<`. */
  predicate IsMapText(name: string) {
    StartsWith(name, "Map<") || StartsWith(name, "HashMap<")
  }

  /** The value `getDefaultValue` computes, or the NullPointerException it raises. */
  datatype Computed = Computed(value: JValue) | NullPointerThrown

  /**
   * `getDefaultValue` as written: for a class type that resolves, it calls
   * `startsWith` on the qualified name without a null check, so a class
   * without one (a type parameter, a local or anonymous class) raises a
   * NullPointerException.
   */
  function DefaultValueAsWritten(u: Universe, t: PsiType): (r: Computed)
    ensures r.NullPointerThrown? ==> t.ClassType? && t.ref in u && u[t.ref].qualifiedName.None?
  {
    var name := PresentableText(t);
    if name == "int" || name == "Integer" then Computed(JInt(0))
    else if name == "long" || name == "Long" then Computed(JInt(0))
    else if name == "double" || name == "Double" then Computed(JDouble("0.0"))
    else if name == "float" || name == "Float" then Computed(JDouble("0.0"))
    else if name == "boolean" || name == "Boolean" then Computed(JBool(false))
    else if name == "String" then Computed(JString("mock_value"))
    else if IsCollectionText(name) then Computed(JArray([]))
    else if IsMapText(name) then Computed(JObject([]))
    else if t.ArrayType? then Computed(JArray([]))
    else if t.ClassType? && t.ref in u && u[t.ref].qualifiedName.None? then NullPointerThrown
    else Computed(JNull)
  }

  /**
   * `getDefaultValue` as intended: both outcomes of the nested-object test
   * are null, so a class type the names above do not catch is null, named or not.
   */
  function DefaultValue(u: Universe, t: PsiType): (r: JValue)
    ensures DefaultValueAsWritten(u, t).Computed? ==> r == DefaultValueAsWritten(u, t).value
  {
    var name := PresentableText(t);
    if name == "int" || name == "Integer" then JInt(0)
    else if name == "long" || name == "Long" then JInt(0)
    else if name == "double" || name == "Double" then JDouble("0.0")
    else if name == "float" || name == "Float" then JDouble("0.0")
    else if name == "boolean" || name == "Boolean" then JBool(false)
    else if name == "String" then JString("mock_value")
    else if IsCollectionText(name) then JArray([])
    else if IsMapText(name) then JObject([])
    else if t.ArrayType? then JArray([])
    else JNull
  }

  /** The written version throws exactly on a resolvable class without a qualified name. */
  lemma AsWrittenThrowsOnlyOnUnnamedClass(u: Universe, t: PsiType)
    ensures DefaultValueAsWritten(u, t).NullPointerThrown? <==>
      t.ClassType? && t.ref in u && u[t.ref].qualifiedName.None? && DefaultValue(u, t) == JNull
      && PresentableText(t) !in {"int", "Integer", "long", "Long", "double", "Double", "float", "Float"}
      && PresentableText(t) !in {"boolean", "Boolean", "String"}
  {
  }

  /**
   * A field of type `T` in a generic class: `T` resolves to a type parameter,
   * whose qualified name is null, and the written generator throws on it.
   */
  lemma TypeParameterFieldThrows()
    ensures DefaultValueAsWritten(map["T" := PsiClass(None, [], [])], ClassType("T", "T", []))
      == NullPointerThrown
  {
    var u := map["T" := PsiClass(None, [], [])];
    var t := ClassType("T", "T", []);
    assert PresentableText(t) == "T";
    assert !StartsWith("T", "List<") && !StartsWith("T", "Set<") && !StartsWith("T", "Map<");
  }

  /** Nested objects are never expanded: every class type the names do not catch is null. */
  lemma NestedObjectsAreNull(u: Universe, t: PsiType)
    requires t.ClassType?
    requires PresentableText(t) !in {"int", "Integer", "long", "Long", "double", "Double", "float", "Float"}
    requires PresentableText(t) !in {"boolean", "Boolean", "String"}
    requires !IsCollectionText(PresentableText(t)) && !IsMapText(PresentableText(t))
    ensures DefaultValue(u, t) == JNull
  {
  }

  /** Long types get the integer 0, not a long: the same value as int types. */
  lemma LongIsIntegerZero(u: Universe)
    ensures DefaultValue(u, PrimitiveType("long")) == JInt(0)
    ensures DefaultValue(u, ClassType("Long", "java.lang.Long", [])) == DefaultValue(u, PrimitiveType("int"))
  {
  }

  /** The field map: every non-static field under its name; final fields are kept. */
  function ObjectFields(u: Universe, fs: seq<PsiField>): seq<Entry>
  {
    if fs == [] then []
    else
      var acc := ObjectFields(u, fs[..|fs| - 1]);
      var f := fs[|fs| - 1];
      if f.isStatic then acc else Put(acc, JString(f.name), DefaultValue(u, f.ftype))
  }

  /** A getter this generator uses: a `get` name with something after it, and a return type. */
  predicate IsUsableGetter(m: PsiMethod) {
    StartsWith(m.name, "get") && |m.name| > 3 && m.returnType.Some?
  }

  /** `m` is a usable getter of property `n`. */
  predicate GetterOf(m: PsiMethod, n: string) {
    IsUsableGetter(m) && ValueGenerator.GetterField(m.name) == n
  }

  /** The getter map: each usable getter puts its property, overwriting an earlier one. */
  function GetterEntries(u: Universe, ms: seq<PsiMethod>): seq<Entry>
  {
    if ms == [] then []
    else
      var acc := GetterEntries(u, ms[..|ms| - 1]);
      var m := ms[|ms| - 1];
      if IsUsableGetter(m) then Put(acc, JString(ValueGenerator.GetterField(m.name)), DefaultValue(u, m.returnType.value))
      else acc
  }

  /** `generateObjectJson`: the field map, or the getter map when no field is kept. */
  function ObjectJson(u: Universe, cls: PsiClass): (r: Generated)
    ensures r.ToJson? && r.value.JObject?
    ensures ObjectFields(u, cls.fields) != [] ==> r.value.entries == ObjectFields(u, cls.fields)
    ensures ObjectFields(u, cls.fields) == [] ==> r.value.entries == GetterEntries(u, cls.methods)
  {
    var fields := ObjectFields(u, cls.fields);
    ValueGenerator.ToJson(JObject(if fields != [] then fields else GetterEntries(u, cls.methods)))
  }

  /** `generateMockValue`. */
  function Generate(u: Universe, t: Option<PsiType>): (r: Generated)
    ensures t.None? ==> r == ValueGenerator.Text("null")
    ensures r.ToJson? ==> r.value.JObject? && t.Some? && t.value.ClassType? && t.value.ref in u
  {
    if t.None? then ValueGenerator.Text("null")
    else
      var name := PresentableText(t.value);
      if name == "int" || name == "Integer" then ValueGenerator.Text("0")
      else if name == "long" || name == "Long" then ValueGenerator.Text("0L")
      else if name == "double" || name == "Double" then ValueGenerator.Text("0.0")
      else if name == "float" || name == "Float" then ValueGenerator.Text("0.0f")
      else if name == "boolean" || name == "Boolean" then ValueGenerator.Text("false")
      else if name == "String" then ValueGenerator.Text("\"mock_string\"")
      else if name == "void" then ValueGenerator.Text("void")
      else if StartsWith(name, "List<") || StartsWith(name, "ArrayList<") then ValueGenerator.Text("[]")
      else if StartsWith(name, "Set<") || StartsWith(name, "HashSet<") then ValueGenerator.Text("[]")
      else if IsMapText(name) then ValueGenerator.Text("{}")
      else if t.value.ArrayType? then ValueGenerator.Text("[]")
      else if t.value.ClassType? && t.value.ref in u then ObjectJson(u, u[t.value.ref])
      else ValueGenerator.Text("null")
  }

  /** The numeric literals: a zero of the right Java type. */
  lemma NumberLiterals(u: Universe, t: PsiType)
    ensures PresentableText(t) in {"int", "Integer"} ==> Generate(u, Some(t)) == ValueGenerator.Text("0")
    ensures PresentableText(t) in {"long", "Long"} ==> Generate(u, Some(t)) == ValueGenerator.Text("0L")
    ensures PresentableText(t) in {"double", "Double"} ==> Generate(u, Some(t)) == ValueGenerator.Text("0.0")
    ensures PresentableText(t) in {"float", "Float"} ==> Generate(u, Some(t)) == ValueGenerator.Text("0.0f")
  {
  }

  /** The other fixed literals: false, the sample string, and void. */
  lemma WordLiterals(u: Universe, t: PsiType)
    ensures PresentableText(t) in {"boolean", "Boolean"} ==> Generate(u, Some(t)) == ValueGenerator.Text("false")
    ensures PresentableText(t) == "String" ==> Generate(u, Some(t)) == ValueGenerator.Text("\"mock_string\"")
    ensures PresentableText(t) == "void" ==> Generate(u, Some(t)) == ValueGenerator.Text("void")
  {
  }

  /** The names with a fixed literal answer. */
  predicate IsFixedName(name: string) {
    name in {"int", "Integer", "long", "Long", "double", "Double", "float", "Float", "boolean", "Boolean", "String", "void"}
  }

  /** No fixed name holds `c` when `c` is one of the brackets '<' and ']'. */
  lemma FixedNamesHaveNoBrackets(name: string, c: char)
    requires c == '<' || c == ']'
    requires c in name
    ensures !IsFixedName(name)
  {
  }

  /** Lists and sets give "[]", read from the presentable name alone. */
  lemma CollectionsAreEmptyArrays(u: Universe, t: PsiType)
    requires IsCollectionText(PresentableText(t))
    ensures Generate(u, Some(t)) == ValueGenerator.Text("[]")
  {
    var name := PresentableText(t);
    if StartsWith(name, "List<") {
      assert name[4] == '<';
    } else if StartsWith(name, "ArrayList<") {
      assert name[9] == '<';
    } else if StartsWith(name, "Set<") {
      assert name[3] == '<';
    } else {
      assert name[7] == '<';
    }
    FixedNamesHaveNoBrackets(name, '<');
  }

  /** Maps give "{}", read from the presentable name alone. */
  lemma MapsAreEmptyObjects(u: Universe, t: PsiType)
    requires IsMapText(PresentableText(t))
    ensures Generate(u, Some(t)) == ValueGenerator.Text("{}")
  {
    var name := PresentableText(t);
    if StartsWith(name, "Map<") {
      assert name[0] == 'M' && name[3] == '<';
    } else {
      assert name[..8] == "HashMap<";
      assert name[4] == 'M' && name[7] == '<';
    }
    assert !IsCollectionText(name);
    FixedNamesHaveNoBrackets(name, '<');
  }

  /**
   * Arrays give "[]", except that an array of maps shows as `Map<..>[]`,
   * which the map test sees first.
   */
  lemma ArraysAreEmptyArrays(u: Universe, t: PsiType)
    requires t.ArrayType? && !IsMapText(PresentableText(t))
    ensures Generate(u, Some(t)) == ValueGenerator.Text("[]")
  {
    var name := PresentableText(t);
    assert name[|name| - 1] == ']';
    FixedNamesHaveNoBrackets(name, ']');
  }

  /** An array of maps reads as a map. */
  lemma ArrayOfMapsReadsAsMap(u: Universe)
    ensures Generate(u, Some(ArrayType(ClassType("Map<K, V>", "java.util.Map", [])))) == ValueGenerator.Text("{}")
  {
    MapsAreEmptyObjects(u, ArrayType(ClassType("Map<K, V>", "java.util.Map", [])));
  }

  /**
   * A class type that resolves and that no name test catches is expanded
   * into its object map, whatever its qualified name.
   */
  lemma ResolvedClassGivesObject(u: Universe, t: PsiType)
    requires t.ClassType? && t.ref in u
    requires !IsFixedName(PresentableText(t))
    requires !IsCollectionText(PresentableText(t)) && !IsMapText(PresentableText(t))
    ensures Generate(u, Some(t)) == ObjectJson(u, u[t.ref])
    ensures Generate(u, Some(t)).ToJson? && Generate(u, Some(t)).value.JObject?
  {
    var name := PresentableText(t);
    assert name != "int" && name != "Integer" && name != "long" && name != "Long";
    assert name != "double" && name != "Double" && name != "float" && name != "Float";
    assert name != "boolean" && name != "Boolean" && name != "String" && name != "void";
  }

  /** A class type that does not resolve, like a missing type, gives "null". */
  lemma UnresolvedGivesNull(u: Universe, t: PsiType)
    requires t.ClassType? && t.ref !in u && PresentableText(t) != "void"
    requires PresentableText(t) !in {"int", "Integer", "long", "Long", "double", "Double", "float", "Float"}
    requires PresentableText(t) !in {"boolean", "Boolean", "String"}
    requires !IsCollectionText(PresentableText(t)) && !IsMapText(PresentableText(t))
    ensures Generate(u, Some(t)) == ValueGenerator.Text("null")
    ensures Generate(u, None) == ValueGenerator.Text("null")
  {
  }

  /** Every non-static field, final ones included, appears in the field map. */
  lemma {:induction false} NonStaticFieldPresent(u: Universe, fs: seq<PsiField>, i: nat)
    requires i < |fs| && !fs[i].isStatic
    ensures Lookup(ObjectFields(u, fs), JString(fs[i].name)).Some?
  {
    var init := fs[..|fs| - 1];
    var f := fs[|fs| - 1];
    if i < |fs| - 1 {
      assert init[i] == fs[i];
      NonStaticFieldPresent(u, init, i);
      if !f.isStatic && f.name != fs[i].name {
        PutOthers(ObjectFields(u, init), JString(f.name), DefaultValue(u, f.ftype), JString(fs[i].name));
      }
    }
  }

  /** A name only static fields have is not a key of the field map. */
  lemma {:induction false} StaticFieldAbsent(u: Universe, fs: seq<PsiField>, n: string)
    requires forall i :: 0 <= i < |fs| && fs[i].name == n ==> fs[i].isStatic
    ensures Lookup(ObjectFields(u, fs), JString(n)).None?
  {
    if fs != [] {
      var init := fs[..|fs| - 1];
      var f := fs[|fs| - 1];
      forall i | 0 <= i < |init| && init[i].name == n
        ensures init[i].isStatic
      {
        assert init[i] == fs[i];
      }
      StaticFieldAbsent(u, init, n);
      if !f.isStatic {
        PutOthers(ObjectFields(u, init), JString(f.name), DefaultValue(u, f.ftype), JString(n));
      }
    }
  }


  /** With only static fields the field map is empty. */
  lemma {:induction false} AllStaticIsEmpty(u: Universe, fs: seq<PsiField>)
    requires forall i :: 0 <= i < |fs| ==> fs[i].isStatic
    ensures ObjectFields(u, fs) == []
  {
    if fs != [] {
      AllStaticIsEmpty(u, fs[..|fs| - 1]);
    }
  }

  /**
   * Getters are only read when every field is static: a class with a
   * non-static field is shown by its fields alone.
   */
  lemma FieldsHideGetters(u: Universe, cls: PsiClass, i: nat, n: string)
    requires i < |cls.fields| && !cls.fields[i].isStatic
    requires forall j :: 0 <= j < |cls.fields| && cls.fields[j].name == n ==> cls.fields[j].isStatic
    ensures Lookup(ObjectJson(u, cls).value.entries, JString(n)).None?
  {
    NonStaticFieldPresent(u, cls.fields, i);
    StaticFieldAbsent(u, cls.fields, n);
  }

  /** A class whose fields are all static is shown by its getters: each usable getter's property appears. */
  lemma GettersWhenAllStatic(u: Universe, cls: PsiClass, i: nat, n: string)
    requires forall j :: 0 <= j < |cls.fields| ==> cls.fields[j].isStatic
    requires i < |cls.methods| && GetterOf(cls.methods[i], n)
    ensures Lookup(ObjectJson(u, cls).value.entries, JString(n)).Some?
  {
    AllStaticIsEmpty(u, cls.fields);
    GetterPresent(u, cls.methods, i, n);
  }

  /** Every usable getter's property appears in the getter map. */
  lemma {:induction false} GetterPresent(u: Universe, ms: seq<PsiMethod>, i: nat, n: string)
    requires i < |ms| && GetterOf(ms[i], n)
    ensures Lookup(GetterEntries(u, ms), JString(n)).Some?
  {
    var init := ms[..|ms| - 1];
    var m := ms[|ms| - 1];
    if IsUsableGetter(m) && ValueGenerator.GetterField(m.name) == n {
    } else {
      assert init[i] == ms[i];
      GetterPresent(u, init, i, n);
      if IsUsableGetter(m) {
        PutOthers(GetterEntries(u, init), JString(ValueGenerator.GetterField(m.name)),
          DefaultValue(u, m.returnType.value), JString(n));
      }
    }
  }

  /**
   * The last getter wins: a property's value comes from the last usable
   * getter naming it, since each put overwrites the one before.
   */
  lemma {:induction false} LastGetterWins(u: Universe, ms: seq<PsiMethod>, i: nat)
    requires i < |ms| && IsUsableGetter(ms[i])
    requires forall j :: i < j < |ms| ==> !GetterOf(ms[j], ValueGenerator.GetterField(ms[i].name))
    ensures Lookup(GetterEntries(u, ms), JString(ValueGenerator.GetterField(ms[i].name)))
      == Some(DefaultValue(u, ms[i].returnType.value))
  {
    if i < |ms| - 1 {
      var init := ms[..|ms| - 1];
      var m := ms[|ms| - 1];
      var n := ValueGenerator.GetterField(ms[i].name);
      assert init[i] == ms[i];
      LastGetterWins(u, init, i);
      if IsUsableGetter(m) {
        var v := DefaultValue(u, m.returnType.value);
        assert GetterEntries(u, ms) == Put(GetterEntries(u, init), JString(ValueGenerator.GetterField(m.name)), v);
        PutOthers(GetterEntries(u, init), JString(ValueGenerator.GetterField(m.name)), v, JString(n));
      }
    }
  }

  /** `generateObjectJson`: the field loop, then the getter loop when no field was kept. */
  method GenerateObjectJson(u: Universe, cls: PsiClass) returns (r: Generated)
    ensures r == ObjectJson(u, cls)
  {
    var jsonMap := FieldLoop(u, cls.fields);
    if jsonMap == [] {
      jsonMap := GetterLoop(u, cls.methods);
    }
    r := ValueGenerator.ToJson(JObject(jsonMap));
  }

  lemma ObjectFieldsStep(u: Universe, fs: seq<PsiField>, i: nat)
    requires i < |fs|
    ensures ObjectFields(u, fs[..i + 1]) ==
      if fs[i].isStatic then ObjectFields(u, fs[..i])
      else Put(ObjectFields(u, fs[..i]), JString(fs[i].name), DefaultValue(u, fs[i].ftype))
  {
    assert fs[..i + 1][..i] == fs[..i];
  }

  lemma GetterEntriesStep(u: Universe, ms: seq<PsiMethod>, k: nat)
    requires k < |ms|
    ensures GetterEntries(u, ms[..k + 1]) ==
      if IsUsableGetter(ms[k])
      then Put(GetterEntries(u, ms[..k]), JString(ValueGenerator.GetterField(ms[k].name)), DefaultValue(u, ms[k].returnType.value))
      else GetterEntries(u, ms[..k])
  {
    assert ms[..k + 1][..k] == ms[..k];
  }

  /** The field loop of `generateObjectJson`: static fields are skipped. */
  method FieldLoop(u: Universe, fields: seq<PsiField>) returns (jsonMap: seq<Entry>)
    ensures jsonMap == ObjectFields(u, fields)
  {
    jsonMap := [];
    var i := 0;
    while i < |fields|
      invariant 0 <= i <= |fields|
      invariant jsonMap == ObjectFields(u, fields[..i])
    {
      var field := fields[i];
      ObjectFieldsStep(u, fields, i);
      if !field.isStatic {
        jsonMap := Put(jsonMap, JString(field.name), DefaultValue(u, field.ftype));
      }
      i := i + 1;
    }
    assert fields[..i] == fields;
  }

  /** The getter loop of `generateObjectJson`: `getX` methods with a return type put property x. */
  method GetterLoop(u: Universe, methods: seq<PsiMethod>) returns (jsonMap: seq<Entry>)
    ensures jsonMap == GetterEntries(u, methods)
  {
    jsonMap := [];
    var k := 0;
    while k < |methods|
      invariant 0 <= k <= |methods|
      invariant jsonMap == GetterEntries(u, methods[..k])
    {
      var m := methods[k];
      GetterEntriesStep(u, methods, k);
      if StartsWith(m.name, "get") && |m.name| > 3 {
        var fieldName := ValueGenerator.GetterField(m.name);
        if m.returnType.Some? {
          jsonMap := Put(jsonMap, JString(fieldName), DefaultValue(u, m.returnType.value));
        }
      }
      k := k + 1;
    }
    assert methods[..k] == methods;
  }
}
