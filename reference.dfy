/**
 * The documentation generator of the NiceGUI website
 * (website/documentation/reference.py): which attributes of a class are
 * documented, how they are split into properties and methods, the one-line
 * signature text shown for each, and the de-indentation of docstrings.
 *
 * Python reflection is replaced by plain records: a class is its name, its
 * module, its own `__dict__` and the names `dir()` lists for it; a signature
 * is the list of parameters `inspect.signature` reports. Annotations and
 * default values carry the text `inspect.formatannotation` and `repr` give
 * for them.
 */
module Reference {
  import opened Wrappers
  import opened PyStr

  // =======================================================================
  // Reflection records

  /** `inspect.Parameter.kind`. */
  datatype ParameterKind =
    | PositionalOnly
    | PositionalOrKeyword
    | VarPositional
    | KeywordOnly
    | VarKeyword

  /** A default value: whether `callable(default)` holds, and `repr(default)`. */
  datatype DefaultValue = DefaultValue(isCallable: bool, repr: string)

  /** One entry of `inspect.signature(f).parameters`. */
  datatype Parameter = Parameter(
    name: string,
    annotation: Option<string>,
    default: Option<DefaultValue>,
    kind: ParameterKind)

  /** `inspect.signature(f)`: the parameters in order and the return annotation. */
  datatype Signature = Signature(parameters: seq<Parameter>, returnAnnotation: Option<string>)

  /** A `property` object: the getter's signature, and whether a setter and a deleter are set. */
  datatype PropertyInfo = PropertyInfo(fget: Option<Signature>, hasSetter: bool, hasDeleter: bool)

  /** What a class's own `__dict__` holds under a name. */
  datatype Attr =
    | FunctionAttr(sig: Signature)        // inspect.isfunction
    | MethodAttr(sig: Signature)          // inspect.ismethod
    | PropertyAttr(prop: PropertyInfo)    // an instance of property
    | BindablePropertyAttr                // an instance of binding.BindableProperty
    | OtherAttr                           // anything else: data, classmethod, staticmethod, ...

  /** A class of the MRO: `__name__`, `__module__`, `__dict__` and `dir(cls)`. */
  datatype ClassInfo = ClassInfo(
    name: string,
    moduleName: string,
    ownDict: map<string, Attr>,
    dirNames: seq<string>)

  /** The value `getattr(cls, name, None)` gives for a name the class defines itself. */
  datatype Value =
    | FunctionValue(sig: Signature)
    | PropertyValue(prop: PropertyInfo)
    | NoneValue

  /** `callable(value)`. */
  predicate IsCallable(v: Value) {
    v.FunctionValue?
  }

  // =======================================================================
  // Collecting the attributes of a class (generate_class_doc)

  /** The part of `class_obj.__mro__` whose classes live in a `nicegui.` module, in MRO order. */
  function NiceguiMro(mro: seq<ClassInfo>): (r: seq<ClassInfo>)
    ensures |r| <= |mro|
  {
    if mro == [] then []
    else (if StartsWith(mro[0].moduleName, "nicegui.") then [mro[0]] else []) + NiceguiMro(mro[1..])
  }

  /** `_is_method_or_property(cls, name)`. */
  predicate IsMethodOrProperty(cls: ClassInfo, name: string) {
    name in cls.ownDict && !cls.ownDict[name].OtherAttr?
  }

  /** The test the collection loop applies to a name listed by `dir(cls)`. */
  predicate Documented(cls: ClassInfo, name: string) {
    !StartsWith(name, "_") && IsMethodOrProperty(cls, name)
  }

  /**
   * `getattr(cls, name, None)` for an attribute the class defines itself. A
   * BindableProperty read on the class (not on an instance) gives None.
   */
  function GetAttr(a: Attr): Value {
    match a
    case FunctionAttr(sig) => FunctionValue(sig)
    case MethodAttr(sig) => FunctionValue(sig)
    case PropertyAttr(prop) => PropertyValue(prop)
    case BindablePropertyAttr => NoneValue
    case OtherAttr => NoneValue
  }

  /** The entries one class contributes for the names in `names`. */
  function OwnAttributes(cls: ClassInfo, names: seq<string>): map<string, Value> {
    map n | n in names && Documented(cls, n) :: GetAttr(cls.ownDict[n])
  }

  /**
   * The attribute map after the loop over `reversed(mro)`: the bases are
   * visited first, and a more derived class overwrites what they wrote.
   */
  function Collected(mro: seq<ClassInfo>): map<string, Value> {
    if mro == [] then map[]
    else Collected(mro[1..]) + OwnAttributes(mro[0], mro[0].dirNames)
  }

  lemma {:induction false} OwnAttributesStep(cls: ClassInfo, names: seq<string>, name: string, before: map<string, Value>)
    ensures before + OwnAttributes(cls, names + [name])
         == if Documented(cls, name) then (before + OwnAttributes(cls, names))[name := GetAttr(cls.ownDict[name])]
            else before + OwnAttributes(cls, names)
  {
  }

  /** The collection loop of `generate_class_doc`, over an already filtered MRO. */
  method CollectAttributes(mro: seq<ClassInfo>) returns (attributes: map<string, Value>)
    ensures attributes == Collected(mro)
  {
    attributes := map[];
    var i := |mro|;
    while i > 0
      invariant 0 <= i <= |mro|
      invariant attributes == Collected(mro[i..])
    {
      i := i - 1;
      var base := mro[i];
      assert mro[i..][1..] == mro[i + 1..];
      var j := 0;
      while j < |base.dirNames|
        invariant 0 <= j <= |base.dirNames|
        invariant attributes == Collected(mro[i + 1..]) + OwnAttributes(base, base.dirNames[..j])
      {
        var name := base.dirNames[j];
        assert base.dirNames[..j + 1] == base.dirNames[..j] + [name];
        OwnAttributesStep(base, base.dirNames[..j], name, Collected(mro[i + 1..]));
        if !StartsWith(name, "_") && IsMethodOrProperty(base, name) {
          attributes := attributes[name := GetAttr(base.ownDict[name])];
        }
        j := j + 1;
      }
      assert base.dirNames[..j] == base.dirNames;
    }
    assert mro[0..] == mro;
  }

  /** A name is collected only if some class lists it, defines it itself and it is public. */
  lemma {:induction false} CollectedOnlyDocumented(mro: seq<ClassInfo>, name: string)
    requires name in Collected(mro)
    ensures !StartsWith(name, "_")
    ensures exists i :: 0 <= i < |mro| && name in mro[i].dirNames && IsMethodOrProperty(mro[i], name)
  {
    if name in OwnAttributes(mro[0], mro[0].dirNames) {
      assert name in mro[0].dirNames && Documented(mro[0], name);
    } else {
      CollectedOnlyDocumented(mro[1..], name);
      var i :| 0 <= i < |mro[1..]| && name in mro[1..][i].dirNames && IsMethodOrProperty(mro[1..][i], name);
      assert mro[i + 1] == mro[1..][i];
    }
  }

  /**
   * Every name some class lists and defines is collected, and the value kept
   * is that of the most derived such class.
   */
  lemma {:induction false} CollectedIsMostDerived(mro: seq<ClassInfo>, name: string, i: nat)
    requires i < |mro| && name in mro[i].dirNames && Documented(mro[i], name)
    requires forall j :: 0 <= j < i ==> !(name in mro[j].dirNames && Documented(mro[j], name))
    ensures name in Collected(mro)
    ensures Collected(mro)[name] == GetAttr(mro[i].ownDict[name])
  {
    if i > 0 {
      forall j | 0 <= j < i - 1
        ensures !(name in mro[1..][j].dirNames && Documented(mro[1..][j], name))
      {
        assert mro[1..][j] == mro[j + 1];
      }
      CollectedIsMostDerived(mro[1..], name, i - 1);
      assert name !in OwnAttributes(mro[0], mro[0].dirNames);
    }
  }

  /** The filtered MRO holds exactly the classes of `nicegui.` modules. */
  lemma {:induction false} NiceguiMroMembers(mro: seq<ClassInfo>)
    ensures forall c :: c in NiceguiMro(mro) <==> c in mro && StartsWith(c.moduleName, "nicegui.")
  {
    if mro != [] {
      NiceguiMroMembers(mro[1..]);
      assert mro == [mro[0]] + mro[1..];
    }
  }

  /** Filtering the MRO keeps the order of the classes. */
  lemma {:induction false} NiceguiMroConcat(a: seq<ClassInfo>, b: seq<ClassInfo>)
    ensures NiceguiMro(a + b) == NiceguiMro(a) + NiceguiMro(b)
  {
    if a != [] {
      var head := if StartsWith(a[0].moduleName, "nicegui.") then [a[0]] else [];
      assert (a + b)[0] == a[0] && (a + b)[1..] == a[1..] + b;
      assert NiceguiMro(a + b) == head + NiceguiMro(a[1..] + b);
      NiceguiMroConcat(a[1..], b);
      assert NiceguiMro(a) == head + NiceguiMro(a[1..]);
      assert head + (NiceguiMro(a[1..]) + NiceguiMro(b)) == (head + NiceguiMro(a[1..])) + NiceguiMro(b);
    } else {
      assert a + b == b;
    }
  }

  /** `properties`: the collected attributes that are not callable. */
  function Properties(attributes: map<string, Value>): map<string, Value> {
    map n | n in attributes && !IsCallable(attributes[n]) :: attributes[n]
  }

  /** `methods`: the collected attributes that are callable. */
  function Methods(attributes: map<string, Value>): map<string, Value> {
    map n | n in attributes && IsCallable(attributes[n]) :: attributes[n]
  }

  /** Properties and methods split the collected attributes: each name lands in exactly one. */
  lemma {:induction false} PartitionAttributes(attributes: map<string, Value>)
    ensures Properties(attributes).Keys !! Methods(attributes).Keys
    ensures Properties(attributes) + Methods(attributes) == attributes
    ensures forall n :: n in Properties(attributes) ==> !IsCallable(Properties(attributes)[n])
    ensures forall n :: n in Methods(attributes) ==> IsCallable(Methods(attributes)[n])
  {
  }

  /** `sorted(group.items())`: the names of a group in increasing order. */
  method SortedNames(names: set<string>) returns (sorted: seq<string>)
    ensures StrictlySorted(sorted)
    ensures forall n :: n in sorted <==> n in names
    ensures |sorted| == |names|
  {
    sorted := [];
    var rest := names;
    while rest != {}
      invariant StrictlySorted(sorted)
      invariant forall n :: n in sorted <==> n in names && n !in rest
      invariant rest <= names
      invariant |sorted| + |rest| == |names|
      decreases rest
    {
      var name :| name in rest;
      sorted := Insert(sorted, name);
      rest := rest - {name};
    }
  }

  // =======================================================================
  // Signature text

  /** The return annotation of a property's getter, when there is a getter and it has one. */
  function GetterAnnotation(info: PropertyInfo): Option<string> {
    if info.fget.Some? then info.fget.value.returnAnnotation else None
  }

  function Flag(on: bool, text: string): string {
    if on then text else ""
  }

  /** The text `_generate_property_signature_description` gives for a property (None: a BindableProperty). */
  function PropertyDescription(p: Option<PropertyInfo>): (d: string)
    ensures p.None? ==> d == ": BindableProperty"
    ensures p.Some? ==>
      (d == "" <==> GetterAnnotation(p.value).None? && !p.value.hasSetter && !p.value.hasDeleter)
    ensures p.Some? && p.value.hasDeleter ==> EndsWith(d, " (deletable)")
    ensures p.Some? && p.value.hasSetter && !p.value.hasDeleter ==> EndsWith(d, " (settable)")
    ensures p.Some? && GetterAnnotation(p.value).Some? ==> StartsWith(d, ": " + GetterAnnotation(p.value).value)
  {
    match p
    case None => ": BindableProperty"
    case Some(info) =>
      var typePart := if GetterAnnotation(info).Some? then ": " + GetterAnnotation(info).value else "";
      var d := typePart + Flag(info.hasSetter, " (settable)") + Flag(info.hasDeleter, " (deletable)");
      assert StartsWith(d, typePart) by {
        assert d[..|typePart|] == typePart;
      }
      d
  }

  /** `_generate_property_signature_description`: the description is built up step by step. */
  method PropertySignatureDescription(property: Option<PropertyInfo>) returns (description: string)
    ensures description == PropertyDescription(property)
  {
    description := "";
    if property.None? {
      return ": BindableProperty";
    }
    var info := property.value;
    if info.fget.Some? {
      var returnAnnotation := info.fget.value.returnAnnotation;
      if returnAnnotation.Some? {
        description := description + ": " + returnAnnotation.value;
      }
    }
    ghost var typePart := if GetterAnnotation(info).Some? then ": " + GetterAnnotation(info).value else "";
    assert description == typePart;
    if info.hasSetter {
      description := description + " (settable)";
    }
    assert description == typePart + Flag(info.hasSetter, " (settable)");
    if info.hasDeleter {
      description := description + " (deletable)";
    }
    assert description == typePart + Flag(info.hasSetter, " (settable)") + Flag(info.hasDeleter, " (deletable)");
  }

  /**
   * Reads a property description back: the return annotation, whether it is
   * settable, whether it is deletable.
   */
  function ParsePropertyDescription(d: string): (Option<string>, bool, bool) {
    var (deletable, rest) := DropSuffix(d, " (deletable)");
    var (settable, head) := DropSuffix(rest, " (settable)");
    var annotation := if StartsWith(head, ": ") then Some(head[2..]) else None;
    (annotation, settable, deletable)
  }

  /** Whether `s` ends with `suffix`, and `s` without it. */
  function DropSuffix(s: string, suffix: string): (bool, string) {
    if EndsWith(s, suffix) then (true, s[..|s| - |suffix|]) else (false, s)
  }

  lemma {:induction false} DropSuffixOfFlag(head: string, suffix: string, on: bool)
    requires !EndsWith(head, suffix)
    ensures DropSuffix(head + Flag(on, suffix), suffix) == (on, head)
  {
    if on {
      var s := head + suffix;
      assert s[|s| - |suffix|..] == suffix && s[..|s| - |suffix|] == head;
    } else {
      assert head + Flag(on, suffix) == head;
    }
  }

  /** A text whose last character is not `)` does not end with a suffix that does. */
  lemma {:induction false} NoClosingParen(s: string, suffix: string)
    requires suffix != [] && suffix[|suffix| - 1] == ')'
    requires s == [] || s[|s| - 1] != ')'
    ensures !EndsWith(s, suffix)
  {
    if |suffix| <= |s| {
      assert s[|s| - |suffix|..][|suffix| - 1] == s[|s| - 1];
    }
  }

  lemma {:induction false} SettableIsNotDeletable(s: string)
    ensures !EndsWith(s + " (settable)", " (deletable)")
  {
    var d := s + " (settable)";
    if |d| >= 12 {
      assert d[|d| - 12..][5] == d[|d| - 7] == 't';
    }
  }

  /**
   * The description of a property determines its annotation and both flags,
   * as long as the annotation text does not itself end in a parenthesis.
   */
  lemma {:induction false} PropertyDescriptionRoundTrip(info: PropertyInfo)
    requires GetterAnnotation(info).Some? ==> !EndsWith(GetterAnnotation(info).value, ")")
    ensures ParsePropertyDescription(PropertyDescription(Some(info)))
         == (GetterAnnotation(info), info.hasSetter, info.hasDeleter)
  {
    var typePart := if GetterAnnotation(info).Some? then ": " + GetterAnnotation(info).value else "";
    var afterSet := typePart + Flag(info.hasSetter, " (settable)");
    assert PropertyDescription(Some(info)) == afterSet + Flag(info.hasDeleter, " (deletable)");
    assert typePart == [] || typePart[|typePart| - 1] != ')' by {
      if GetterAnnotation(info).Some? {
        var t := GetterAnnotation(info).value;
        if t != [] {
          assert t[|t| - 1..] == [t[|t| - 1]];
        }
      }
    }
    NoClosingParen(typePart, " (settable)");
    if info.hasSetter {
      SettableIsNotDeletable(typePart);
    } else {
      NoClosingParen(typePart, " (deletable)");
    }
    DropSuffixOfFlag(afterSet, " (deletable)", info.hasDeleter);
    DropSuffixOfFlag(typePart, " (settable)", info.hasSetter);
    if GetterAnnotation(info).Some? {
      assert typePart[..2] == ": " && typePart[2..] == GetterAnnotation(info).value;
    }
  }

  /** `param.annotation` rendered after the name: `': T'` with surrounding quotes stripped. */
  function AnnotationText(annotation: Option<string>): string {
    match annotation
    case None => ""
    case Some(t) => ": " + Strip(t, '\'')
  }

  /** `param.default` rendered: `' = [...]'` for a callable, else `' = '` and its repr. */
  function DefaultText(default: Option<DefaultValue>): string {
    match default
    case None => ""
    case Some(v) => if v.isCallable then " = [...]" else " = " + v.repr
  }

  /** The text of one parameter; the `*` of a var-positional one goes in front of everything. */
  function RenderParameter(p: Parameter): string {
    var s := p.name + AnnotationText(p.annotation) + DefaultText(p.default);
    if p.kind == VarPositional then "*" + s else s
  }

  /** The parameters that are shown: all but those named `self`, in their order. */
  function Shown(ps: seq<Parameter>): seq<Parameter>
  {
    if ps == [] then []
    else (if ps[0].name != "self" then [ps[0]] else []) + Shown(ps[1..])
  }

  function RenderAll(ps: seq<Parameter>): (r: seq<string>)
    ensures |r| == |ps|
    ensures forall k :: 0 <= k < |ps| ==> r[k] == RenderParameter(ps[k])
  {
    seq(|ps|, k requires 0 <= k < |ps| => RenderParameter(ps[k]))
  }

  /** The return annotation cleaned up: quotes stripped, `typing_extensions.` and `typing.` removed. */
  function CleanReturnType(t: string): string {
    Replace(Replace(Strip(t, '\''), "typing_extensions.", ""), "typing.", "")
  }

  function ReturnText(returnAnnotation: Option<string>): string {
    match returnAnnotation
    case None => ""
    case Some(t) => " -> " + CleanReturnType(t)
  }

  /** The text `_generate_method_signature_description` gives for a signature. */
  function MethodDescription(sig: Signature): string {
    "(" + Join(", ", RenderAll(Shown(sig.parameters))) + ")" + ReturnText(sig.returnAnnotation)
  }

  /** `_generate_method_signature_description`: a loop collects the parameter strings. */
  method MethodSignatureDescription(sig: Signature) returns (description: string)
    ensures description == MethodDescription(sig)
  {
    var paramStrings: seq<string> := [];
    for k := 0 to |sig.parameters|
      invariant paramStrings == RenderAll(Shown(sig.parameters[..k]))
    {
      var param := sig.parameters[k];
      assert sig.parameters[..k + 1] == sig.parameters[..k] + [param];
      ShownSnoc(sig.parameters[..k], param);
      if param.name == "self" {
        continue;
      }
      var paramString := ParameterString(param);
      RenderAllSnoc(Shown(sig.parameters[..k]), param);
      paramStrings := paramStrings + [paramString];
    }
    assert sig.parameters[..|sig.parameters|] == sig.parameters;
    var methodSignature := Join(", ", paramStrings);
    description := "(" + methodSignature + ")";
    if sig.returnAnnotation.Some? {
      var returnType := sig.returnAnnotation.value;
      description := description + " -> " +
        Replace(Replace(Strip(returnType, '\''), "typing_extensions.", ""), "typing.", "");
    }
  }

  /** The body of that loop for a parameter other than `self`: name, annotation, default, star. */
  method ParameterString(param: Parameter) returns (paramString: string)
    ensures paramString == RenderParameter(param)
  {
    paramString := param.name;
    if param.annotation.Some? {
      paramString := paramString + ": " + Strip(param.annotation.value, '\'');
      assert paramString == param.name + AnnotationText(param.annotation) by {
        assert AnnotationText(param.annotation) == ": " + Strip(param.annotation.value, '\'');
      }
    } else {
      assert paramString == param.name + AnnotationText(param.annotation) by {
        assert param.name + "" == param.name;
      }
    }
    ghost var named := paramString;
    if param.default.Some? {
      paramString := paramString +
        if param.default.value.isCallable then " = [...]" else " = " + param.default.value.repr;
      assert paramString == named + DefaultText(param.default);
    } else {
      assert paramString == named + DefaultText(param.default) by {
        assert named + "" == named;
      }
    }
    if param.kind == VarPositional {
      paramString := "*" + paramString;
    }
  }

  lemma {:induction false} ShownSnoc(ps: seq<Parameter>, p: Parameter)
    ensures Shown(ps + [p]) == if p.name == "self" then Shown(ps) else Shown(ps) + [p]
  {
    ShownConcat(ps, [p]);
    assert [p][1..] == [];
  }

  lemma {:induction false} RenderAllSnoc(ps: seq<Parameter>, p: Parameter)
    ensures RenderAll(ps + [p]) == RenderAll(ps) + [RenderParameter(p)]
  {
  }

  /** `self` is never shown, and every other parameter is. */
  lemma {:induction false} ShownMembers(ps: seq<Parameter>)
    ensures forall p :: p in Shown(ps) <==> p in ps && p.name != "self"
  {
    if ps != [] {
      ShownMembers(ps[1..]);
      assert ps == [ps[0]] + ps[1..];
    }
  }

  /** Dropping `self` keeps the other parameters in their order. */
  lemma {:induction false} ShownConcat(a: seq<Parameter>, b: seq<Parameter>)
    ensures Shown(a + b) == Shown(a) + Shown(b)
  {
    if a == [] {
      assert a + b == b;
    } else {
      assert (a + b)[1..] == a[1..] + b;
      ShownConcat(a[1..], b);
    }
  }

  /**
   * The method description is one parenthesised list at the start, followed
   * by ` -> T` exactly when there is a return annotation.
   */
  lemma {:induction false} MethodDescriptionShape(sig: Signature)
    ensures var inner := Join(", ", RenderAll(Shown(sig.parameters)));
      var d := MethodDescription(sig);
      && StartsWith(d, "(" + inner + ")")
      && (sig.returnAnnotation.None? <==> |d| == |inner| + 2)
      && (sig.returnAnnotation.Some? ==> d[|inner| + 2..] == " -> " + CleanReturnType(sig.returnAnnotation.value))
  {
    var inner := Join(", ", RenderAll(Shown(sig.parameters)));
    var d := MethodDescription(sig);
    assert d[..|inner| + 2] == "(" + inner + ")";
  }

  /** A Python identifier: non-empty, and none of the characters the rendering adds. */
  predicate PlainName(name: string) {
    name != [] && forall k :: 0 <= k < |name| ==> name[k] != ':' && name[k] != ' ' && name[k] != '*'
  }

  /** The length of the longest prefix of `s` that holds no `:` and no space. */
  function NameLength(s: string): (n: nat)
    ensures n <= |s|
  {
    if s == [] || s[0] == ':' || s[0] == ' ' then 0 else 1 + NameLength(s[1..])
  }

  /** Reads the star and the name back from a rendered parameter. */
  function ParseParameter(r: string): (bool, string) {
    var starred := r != [] && r[0] == '*';
    var rest := if starred then r[1..] else r;
    (starred, rest[..NameLength(rest)])
  }

  lemma {:induction false} NameLengthOfName(name: string, tail: string)
    requires forall k :: 0 <= k < |name| ==> name[k] != ':' && name[k] != ' '
    requires tail == [] || tail[0] == ':' || tail[0] == ' '
    ensures NameLength(name + tail) == |name|
  {
    if name != [] {
      assert (name + tail)[1..] == name[1..] + tail;
      NameLengthOfName(name[1..], tail);
    } else {
      assert name + tail == tail;
    }
  }

  /**
   * The rendered text of a parameter gives back its name and whether it is
   * var-positional: the star is the only prefix, and the name comes first.
   */
  lemma {:induction false} RenderParameterRoundTrip(p: Parameter)
    requires PlainName(p.name)
    ensures ParseParameter(RenderParameter(p)) == (p.kind == VarPositional, p.name)
  {
    var tail := AnnotationText(p.annotation) + DefaultText(p.default);
    assert p.name + AnnotationText(p.annotation) + DefaultText(p.default) == p.name + tail;
    TailStartsWithSeparator(p.annotation, p.default);
    ParseStarredName(p.kind == VarPositional, p.name, tail);
  }

  /** A plain name, starred or not, followed by text that starts with a separator, parses back. */
  lemma {:induction false} ParseStarredName(starred: bool, name: string, tail: string)
    requires PlainName(name)
    requires tail == [] || tail[0] == ':' || tail[0] == ' '
    ensures var s := name + tail;
      ParseParameter(if starred then "*" + s else s) == (starred, name)
  {
    var s := name + tail;
    var r := if starred then "*" + s else s;
    NameLengthOfName(name, tail);
    var rest := if starred then r[1..] else r;
    assert rest == s by {
      if starred {
        assert ("*" + s)[1..] == s;
      }
    }
    assert (r != [] && r[0] == '*') == starred by {
      assert s[0] == name[0];
    }
    assert rest[..NameLength(rest)] == name by {
      assert s[..|name|] == name;
    }
  }

  /** What follows the name of a parameter starts with `:` or a space. */
  lemma {:induction false} TailStartsWithSeparator(annotation: Option<string>, default: Option<DefaultValue>)
    ensures var tail := AnnotationText(annotation) + DefaultText(default);
      tail == [] || tail[0] == ':' || tail[0] == ' '
  {
    if annotation.Some? {
      assert AnnotationText(annotation)[0] == ':';
    } else if default.Some? {
      assert DefaultText(default)[0] == ' ';
    }
  }

  /** A default is shown last: `' = [...]'` when callable, otherwise `' = '` and its repr. */
  lemma {:induction false} RenderParameterDefault(p: Parameter)
    requires p.default.Some?
    ensures p.default.value.isCallable ==> EndsWith(RenderParameter(p), " = [...]")
    ensures !p.default.value.isCallable ==> EndsWith(RenderParameter(p), " = " + p.default.value.repr)
  {
    var last := DefaultText(p.default);
    var front := (if p.kind == VarPositional then "*" else "") + p.name + AnnotationText(p.annotation);
    RenderParameterParts(p);
    EndsWithConcat(front, last);
  }

  /** The star, when there is one, comes first, then the name, the annotation and the default. */
  lemma {:induction false} RenderParameterParts(p: Parameter)
    ensures RenderParameter(p)
         == (if p.kind == VarPositional then "*" else "") + p.name + AnnotationText(p.annotation) + DefaultText(p.default)
  {
    StarInFront(p.kind == VarPositional, p.name, AnnotationText(p.annotation), DefaultText(p.default));
  }

  lemma {:induction false} StarInFront(star: bool, name: string, annotation: string, default: string)
    ensures (if star then "*" + (name + annotation + default) else name + annotation + default)
         == (if star then "*" else "") + name + annotation + default
  {
    if !star {
      assert "" + name == name;
    }
  }

  /** A return type without quotes at its ends and without `typing` prefixes is shown as it is. */
  lemma {:induction false} CleanReturnTypePlain(t: string)
    requires t == [] || (t[0] != '\'' && t[|t| - 1] != '\'')
    requires !Contains(t, "typing_extensions.") && !Contains(t, "typing.")
    ensures CleanReturnType(t) == t
  {
    StripUnchanged(t, '\'');
    ReplaceAbsent(t, "typing_extensions.", "");
    ReplaceAbsent(t, "typing.", "");
  }

  /**
   * A `typing.` between two texts without `typing_extensions.` brings in no
   * `typing_extensions.`, since no occurrence can reach across either
   * boundary; so the first `replace` pass leaves the text as it is.
   */
  lemma {:induction false} ExtensionsPassAroundTyping(prefix: string, name: string)
    requires !Contains(prefix, "typing_extensions.") && !Contains(name, "typing_extensions.")
    ensures !Contains(prefix + "typing." + name, "typing_extensions.")
    ensures var s := prefix + "typing." + name;
      Replace(s, "typing_extensions.", "") == s
  {
    var s := prefix + "typing." + name;
    var pat := "typing_extensions.";
    var n := |prefix|;
    assert s[n] == 't' && s[n + 1] == 'y' && s[n + 6] == '.';
    forall i: nat | i <= |s| ensures !OccursAt(s, pat, i) {
      if i + |pat| <= |s| {
        if i + |pat| <= n {
          assert !OccursAt(prefix, pat, i);
          assert s[i..i + |pat|] == prefix[i..i + |pat|];
        } else if n + 7 <= i {
          assert !OccursAt(name, pat, i - n - 7);
          assert s[i..i + |pat|] == name[i - n - 7..i - n - 7 + |pat|];
        } else if i < n && n - i == 9 {
          assert s[i..i + |pat|][10] == s[n + 1];
          assert pat[10] == 'e';
        } else if i < n {
          assert s[i..i + |pat|][n - i] == s[n];
          assert pat[n - i] != 't';
        } else if i == n {
          assert s[i..i + |pat|][6] == s[n + 6];
          assert pat[6] == '_';
        } else {
          assert s[i..i + |pat|][0] == s[i];
          assert s[i] != 't';
        }
      }
    }
    ReplaceAbsent(s, pat, "");
  }

  /**
   * With no `typing.` in `prefix`, the second `replace` pass over
   * `prefix + "typing." + name` keeps `prefix`, drops the qualifier after it
   * and goes on in `name`: no occurrence can start in `prefix`.
   */
  lemma {:induction false} TypingPassAfterPrefix(prefix: string, name: string)
    requires !Contains(prefix, "typing.")
    ensures Replace(prefix + "typing." + name, "typing.", "") == prefix + Replace(name, "typing.", "")
  {
    var s := prefix + "typing." + name;
    var pat := "typing.";
    var n := |prefix|;
    assert s[n] == 't';
    forall i: nat | i < n ensures !OccursAt(s, pat, i) {
      if i + |pat| <= n {
        assert !OccursAt(prefix, pat, i);
        assert s[i..i + |pat|] == prefix[i..i + |pat|];
      } else if i + |pat| <= |s| {
        assert s[i..i + |pat|][n - i] == s[n];
        assert pat[n - i] != 't';
      }
    }
    ReplaceAt(prefix, pat, name, "");
    assert prefix + "" == prefix;
  }

  /**
   * A return type `P.typing.X`, for a `P` holding neither pattern, is shown
   * as `P` followed by `X` with its own `typing.` qualifiers removed.
   */
  lemma {:induction false} CleanReturnTypeQualified(prefix: string, name: string)
    requires prefix == [] || prefix[0] != '\''
    requires name == [] || name[|name| - 1] != '\''
    requires !Contains(prefix, "typing_extensions.") && !Contains(name, "typing_extensions.")
    requires !Contains(prefix, "typing.")
    ensures CleanReturnType(prefix + "typing." + name) == prefix + Replace(name, "typing.", "")
  {
    var s := prefix + "typing." + name;
    assert s[0] != '\'' && s[|s| - 1] != '\'' by {
      assert s[|prefix|] == 't';
    }
    StripUnchanged(s, '\'');
    ExtensionsPassAroundTyping(prefix, name);
    TypingPassAfterPrefix(prefix, name);
  }

  /**
   * A return type `typing_extensions.X` is shown as `X` with its `typing.`
   * qualifiers removed.
   */
  lemma {:induction false} CleanReturnTypeExtensions(name: string)
    requires name == [] || name[|name| - 1] != '\''
    requires !Contains(name, "typing_extensions.")
    ensures CleanReturnType("typing_extensions." + name) == Replace(name, "typing.", "")
  {
    var s := "typing_extensions." + name;
    assert s[0] == 't' && s[|s| - 1] != '\'';
    StripUnchanged(s, '\'');
    ReplaceLeading(name, "typing_extensions.", "");
    ReplaceAbsent(name, "typing_extensions.", "");
    assert Replace(s, "typing_extensions.", "") == name;
  }


  // =======================================================================
  // The computed documentation of a class

  /** One documented member: its name and the signature text shown beside it. */
  datatype Entry = Entry(name: string, description: string)

  /** What `generate_class_doc` shows: properties, methods and the names of the ancestors. */
  datatype ClassDoc = ClassDoc(properties: seq<Entry>, methods: seq<Entry>, ancestors: seq<string>)

  function Names(entries: seq<Entry>): (r: seq<string>)
    ensures |r| == |entries|
    ensures forall k :: 0 <= k < |entries| ==> r[k] == entries[k].name
  {
    seq(|entries|, k requires 0 <= k < |entries| => entries[k].name)
  }

  /** `mro[1:]`: every class of the filtered MRO but the first. */
  function Ancestors(mro: seq<ClassInfo>): (r: seq<ClassInfo>)
    ensures |r| == if mro == [] then 0 else |mro| - 1
    ensures forall k :: 0 <= k < |r| ==> r[k] == mro[k + 1]
  {
    if mro == [] then [] else mro[1..]
  }

  /** The property a collected value stands for; a BindableProperty is `None`. */
  function AsProperty(v: Value): Option<PropertyInfo> {
    if v.PropertyValue? then Some(v.prop) else None
  }

  /** The signature of a collected callable. */
  function AsSignature(v: Value): Signature {
    if v.FunctionValue? then v.sig else Signature([], None)
  }

  /** Each name of a property group with the text its property gets. */
  function PropertyEntries(names: seq<string>, properties: map<string, Value>): (r: seq<Entry>)
    requires forall k :: 0 <= k < |names| ==> names[k] in properties
    ensures Names(r) == names
  {
    seq(|names|, k requires 0 <= k < |names| =>
      Entry(names[k], PropertyDescription(AsProperty(properties[names[k]]))))
  }

  /** Each name of a method group with the text its signature gets. */
  function MethodEntries(names: seq<string>, methods: map<string, Value>): (r: seq<Entry>)
    requires forall k :: 0 <= k < |names| ==> names[k] in methods
    ensures Names(r) == names
  {
    seq(|names|, k requires 0 <= k < |names| =>
      Entry(names[k], MethodDescription(AsSignature(methods[names[k]]))))
  }

  /** The loop over `sorted(properties.items())`: one line of text per property. */
  method DescribeProperties(names: seq<string>, properties: map<string, Value>) returns (entries: seq<Entry>)
    requires forall k :: 0 <= k < |names| ==> names[k] in properties
    ensures entries == PropertyEntries(names, properties)
  {
    entries := [];
    for k := 0 to |names|
      invariant entries == PropertyEntries(names[..k], properties)
    {
      var name := names[k];
      var description := PropertySignatureDescription(AsProperty(properties[name]));
      entries := entries + [Entry(name, description)];
    }
    assert names[..|names|] == names;
  }

  /** The loop over `sorted(methods.items())`: one line of text per method. */
  method DescribeMethods(names: seq<string>, methods: map<string, Value>) returns (entries: seq<Entry>)
    requires forall k :: 0 <= k < |names| ==> names[k] in methods
    ensures entries == MethodEntries(names, methods)
  {
    entries := [];
    for k := 0 to |names|
      invariant entries == MethodEntries(names[..k], methods)
    {
      var name := names[k];
      var description := MethodSignatureDescription(AsSignature(methods[name]));
      entries := entries + [Entry(name, description)];
    }
    assert names[..|names|] == names;
  }

  /**
   * `generate_class_doc` up to what it shows: the properties and the methods,
   * each group in increasing name order with its signature text, and the
   * names of the ancestors.
   */
  method GenerateClassDoc(classMro: seq<ClassInfo>) returns (doc: ClassDoc)
    ensures var attributes := Collected(NiceguiMro(classMro));
      && StrictlySorted(Names(doc.properties))
      && (forall n :: n in Names(doc.properties) <==> n in Properties(attributes))
      && doc.properties == PropertyEntries(Names(doc.properties), Properties(attributes))
    ensures var attributes := Collected(NiceguiMro(classMro));
      && StrictlySorted(Names(doc.methods))
      && (forall n :: n in Names(doc.methods) <==> n in Methods(attributes))
      && doc.methods == MethodEntries(Names(doc.methods), Methods(attributes))
    ensures var ancestors := Ancestors(NiceguiMro(classMro));
      && |doc.ancestors| == |ancestors|
      && forall k :: 0 <= k < |ancestors| ==> doc.ancestors[k] == ancestors[k].name
  {
    var mro := NiceguiMro(classMro);
    var ancestors := if mro == [] then [] else mro[1..];
    assert ancestors == Ancestors(mro);
    var ancestorNames := seq(|ancestors|, k requires 0 <= k < |ancestors| => ancestors[k].name);
    assert |ancestorNames| == |ancestors| && forall k :: 0 <= k < |ancestors| ==> ancestorNames[k] == ancestors[k].name;
    var attributes := CollectAttributes(mro);
    var properties := Properties(attributes);
    var methods := Methods(attributes);

    var propertyNames := SortedNames(properties.Keys);
    assert forall k :: 0 <= k < |propertyNames| ==> propertyNames[k] in properties;
    var propertyEntries := DescribeProperties(propertyNames, properties);

    var methodNames := SortedNames(methods.Keys);
    assert forall k :: 0 <= k < |methodNames| ==> methodNames[k] in methods;
    var methodEntries := DescribeMethods(methodNames, methods);

    doc := ClassDoc(propertyEntries, methodEntries, ancestorNames);
  }

  // =======================================================================
  // Docstring de-indentation (_remove_indentation_from_docstring)

  /** The ValueError `min()` raises when it is given no value at all. */
  datatype DedentError = NoIndentedLine

  /** `min(leading whitespace of line for line in lines if line.strip())`, or None when there is no such line. */
  function MinIndent(lines: seq<string>): (m: Option<nat>)
    ensures m.None? <==> forall k :: 0 <= k < |lines| ==> IsBlank(lines[k])
    ensures m.Some? ==> forall k :: 0 <= k < |lines| && !IsBlank(lines[k]) ==> m.value <= LeadingSpace(lines[k])
    ensures m.Some? ==> exists k :: 0 <= k < |lines| && !IsBlank(lines[k]) && m.value == LeadingSpace(lines[k])
  {
    if lines == [] then None
    else
      var rest := MinIndent(lines[1..]);
      assert forall k :: 1 <= k < |lines| ==> lines[k] == lines[1..][k - 1];
      if IsBlank(lines[0]) then rest
      else
        var w := LeadingSpace(lines[0]);
        match rest
        case None => Some(w)
        case Some(m) => Some(if w < m then w else m)
  }

  /** `line[indentation:]` for every line; a line shorter than that becomes empty. */
  function Unindent(lines: seq<string>, indentation: nat): (r: seq<string>)
    ensures |r| == |lines|
    ensures forall k :: 0 <= k < |lines| ==>
      r[k] == if indentation <= |lines[k]| then lines[k][indentation..] else ""
  {
    seq(|lines|, k requires 0 <= k < |lines| =>
      if indentation <= |lines[k]| then lines[k][indentation..] else "")
  }

  /**
   * `_remove_indentation_from_docstring(text)`: the first line as it is, then
   * the later lines joined by line breaks, each without the smallest
   * indentation among the non-blank later lines. The first line and the rest
   * are put together without a line break. When every later line is blank,
   * `min()` has nothing to choose from and raises.
   */
  function RemoveIndentation(text: string): (r: Result<string, DedentError>)
    ensures text == "" ==> r == Ok("")
    ensures text != "" && NoLineBreak(text) ==> r == Ok(text)
    ensures r.Err? <==>
      |SplitLines(text)| >= 2 && forall k :: 1 <= k < |SplitLines(text)| ==> IsBlank(SplitLines(text)[k])
  {
    var lines := SplitLines(text);
    if lines == [] then Ok("")
    else if |lines| == 1 then Ok(lines[0])
    else
      assert forall k :: 1 <= k < |lines| ==> lines[k] == lines[1..][k - 1];
      match MinIndent(lines[1..])
      case None => Err(NoIndentedLine)
      case Some(indentation) => Ok(lines[0] + Join("\n", Unindent(lines[1..], indentation)))
  }

  function Spaces(k: nat): (r: string)
    ensures |r| == k && forall i :: 0 <= i < k ==> r[i] == ' '
  {
    seq(k, _ => ' ')
  }

  /** Every line with `k` more spaces in front. */
  function Indent(k: nat, lines: seq<string>): (r: seq<string>)
    ensures |r| == |lines|
    ensures forall i :: 0 <= i < |lines| ==> r[i] == Spaces(k) + lines[i]
  {
    seq(|lines|, i requires 0 <= i < |lines| => Spaces(k) + lines[i])
  }

  lemma {:induction false} LeadingSpaceIndented(k: nat, line: string)
    ensures LeadingSpace(Spaces(k) + line) == k + LeadingSpace(line)
    ensures IsBlank(Spaces(k) + line) <==> IsBlank(line)
  {
    var s := Spaces(k) + line;
    var n := k + LeadingSpace(line);
    assert forall i :: 0 <= i < n ==> IsSpace(s[i]) by {
      forall i | 0 <= i < n ensures IsSpace(s[i]) {
        if i >= k { assert s[i] == line[i - k]; }
      }
    }
    if n < |s| {
      assert s[n] == line[LeadingSpace(line)];
    }
    assert IsBlank(line) ==> IsBlank(s) by {
      if IsBlank(line) {
        forall i | 0 <= i < |s| ensures IsSpace(s[i]) {
          if i >= k { assert s[i] == line[i - k]; }
        }
      }
    }
    assert IsBlank(s) ==> IsBlank(line) by {
      if IsBlank(s) {
        forall i | 0 <= i < |line| ensures IsSpace(line[i]) {
          assert s[i + k] == line[i];
        }
      }
    }
  }

  lemma {:induction false} NoLineBreakIndented(k: nat, line: string)
    requires NoLineBreak(line)
    ensures NoLineBreak(Spaces(k) + line)
  {
    var s := Spaces(k) + line;
    forall j | 0 <= j < |s| ensures !IsLineBreak(s[j]) {
      if j >= k { assert s[j] == line[j - k]; }
    }
  }

  /** The smallest indentation grows by `k` when every line is indented by `k`. */
  lemma {:induction false} MinIndentOfIndented(body: seq<string>, k: nat)
    requires MinIndent(body) == Some(0)
    ensures MinIndent(Indent(k, body)) == Some(k)
  {
    var indented := Indent(k, body);
    var j :| 0 <= j < |body| && !IsBlank(body[j]) && 0 == LeadingSpace(body[j]);
    LeadingSpaceIndented(k, body[j]);
    assert !IsBlank(indented[j]) && LeadingSpace(indented[j]) == k;
    var m := MinIndent(indented);
    assert m.Some? && m.value <= k;
    var i :| 0 <= i < |indented| && !IsBlank(indented[i]) && m.value == LeadingSpace(indented[i]);
    LeadingSpaceIndented(k, body[i]);
    assert m.value >= k;
  }

  lemma {:induction false} UnindentIndented(body: seq<string>, k: nat)
    ensures Unindent(Indent(k, body), k) == body
  {
    var indented := Indent(k, body);
    forall i | 0 <= i < |body| ensures Unindent(indented, k)[i] == body[i] {
      assert indented[i][k..] == body[i];
    }
  }

  /**
   * De-indentation undoes indentation: indenting every later line by `k`
   * spaces, when one of them starts at the margin, and removing the
   * indentation again gives the lines back (joined to the first line without
   * a line break).
   */
  lemma {:induction false} RemoveIndentationOfIndented(first: string, body: seq<string>, k: nat)
    requires NoLineBreak(first)
    requires body != [] && forall i :: 0 <= i < |body| ==> NoLineBreak(body[i])
    requires k > 0 || body[|body| - 1] != []
    requires MinIndent(body) == Some(0)
    ensures RemoveIndentation(Join("\n", [first] + Indent(k, body))) == Ok(first + Join("\n", body))
  {
    var indented := Indent(k, body);
    var lines := [first] + indented;
    var text := Join("\n", lines);
    assert SplitLines(text) == lines by {
      forall i | 0 <= i < |lines| ensures NoLineBreak(lines[i]) {
        if i > 0 { NoLineBreakIndented(k, body[i - 1]); }
      }
      assert |lines[|lines| - 1]| > 0;
      SplitLinesJoin(lines);
    }
    assert lines[1..] == indented;
    assert MinIndent(indented) == Some(k) by {
      MinIndentOfIndented(body, k);
    }
    assert Unindent(indented, k) == body by {
      UnindentIndented(body, k);
    }
    RemoveIndentationOfLines(text, k);
  }

  lemma {:induction false} RemoveIndentationOfLines(text: string, m: nat)
    requires |SplitLines(text)| >= 2
    requires MinIndent(SplitLines(text)[1..]) == Some(m)
    ensures RemoveIndentation(text)
         == Ok(SplitLines(text)[0] + Join("\n", Unindent(SplitLines(text)[1..], m)))
  {
  }

  /**
   * The first line and the second are put together without a line break:
   * `"Summary.\n    Details."` becomes `"Summary.Details."`.
   */
  lemma {:induction false} RemoveIndentationJoinsFirstLine(first: string, second: string, k: nat)
    requires NoLineBreak(first) && NoLineBreak(second)
    requires second != [] && !IsSpace(second[0])
    ensures RemoveIndentation(first + "\n" + Spaces(k) + second) == Ok(first + second)
  {
    assert first + "\n" + Spaces(k) + second == Join("\n", [first] + Indent(k, [second])) by {
      assert Join("\n", [Spaces(k) + second]) == Spaces(k) + second;
    }
    assert MinIndent([second]) == Some(0) by {
      assert !IsBlank(second);
      assert LeadingSpace(second) == 0;
    }
    RemoveIndentationOfIndented(first, [second], k);
    assert Join("\n", [second]) == second;
  }


  /**
   * A docstring whose summary line is followed only by blank lines, such as
   * `"Summary.\n    "` (the closing quotes on a line of their own), makes
   * `min()` raise.
   */
  lemma {:induction false} RemoveIndentationRaisesOnBlankTail(first: string, k: nat)
    requires NoLineBreak(first) && k > 0
    ensures RemoveIndentation(first + "\n" + Spaces(k)).Err?
  {
    var lines := [first, Spaces(k)];
    assert NoLineBreak(Spaces(k)) && IsBlank(Spaces(k));
    assert first + "\n" + Spaces(k) == Join("\n", lines) by {
      assert lines[1..] == [Spaces(k)];
    }
    SplitLinesJoin(lines);
  }

  /**
   * De-indentation that does not raise: when every later line is blank, no
   * indentation is removed (as with `min(..., default=0)`), and the result is
   * the first line followed directly by the later lines, unchanged and joined
   * by `\n`. Wherever the original succeeds, both give the same text.
   */
  function RemoveIndentationTolerant(text: string): (r: string)
    ensures RemoveIndentation(text).Ok? ==> r == RemoveIndentation(text).value
    ensures RemoveIndentation(text).Err? ==>
      r == SplitLines(text)[0] + Join("\n", SplitLines(text)[1..])
  {
    var lines := SplitLines(text);
    if lines == [] then ""
    else if |lines| == 1 then lines[0]
    else
      var indentation := match MinIndent(lines[1..]) case None => 0 case Some(m) => m;
      assert Unindent(lines[1..], 0) == lines[1..];
      lines[0] + Join("\n", Unindent(lines[1..], indentation))
  }

}
