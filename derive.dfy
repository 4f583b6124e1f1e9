/**
 * `#[derive(BuildNew)]`: plans a constructor `new` and builder-style setters
 * for a struct with named fields.
 *
 * Each field's attributes are read in order: `#[new]` makes the field a
 * constructor parameter, each `#[set]` asks for a setter taking the field's
 * type, each `#[set_some]` asks for a setter taking the angle-bracketed
 * arguments of the field's type and storing `Some(value)`; a field with
 * several setter attributes gets one setter per attribute. A field without
 * `#[new]` is initialised with `Default::default()`.
 *
 * The functions below state the plan the macro builds; the method `BuildNew`
 * builds it the way the macro does, with loops over the fields and their
 * attributes, and is proved to agree with them.
 */
module Derive {
  import opened Wrappers
  import opened Syn

  /** The ways the macro aborts; each is a panic or a failed assertion in the macro. */
  datatype Error =
    | NotAStruct                // the input is an enum or a union
    | NotNamedFields            // a tuple struct or a unit struct
    | SetSomeNotPath            // `set_some` on a type that is not a path type
    | SetSomeQualifiedSelf      // `set_some` on `<T as Tr>::X`
    | SetSomeSegmentCount       // `set_some` on a path of zero or several segments
    | SetSomeNotAngleBracketed  // `set_some` on a segment without `<...>`

  /** `name: Type`, one parameter of the generated `new`. */
  datatype NewArg = NewArg(ident: string, ty: Type)

  /** One initialiser in the body of `new`: `ident` (from the parameter) or `ident: Default::default()`. */
  datatype FieldInit = FromArg(ident: string) | DefaultInit(ident: string)

  /**
   * One generated setter `pub fn ident(mut self, ident: P) -> Self`.
   * `SetterDirect` exposes P = the field's type and assigns `self.ident = ident`;
   * `SetterSome` exposes P = the angle-bracketed argument list and assigns
   * `self.ident = Some(ident)`.
   */
  datatype Setter =
    | SetterDirect(ident: string, ty: Type)
    | SetterSome(ident: string, inner: seq<GenericArgument>)

  /** The three sequences the macro fills: `new_args`, `new_fields`, `setters`. */
  datatype Plan = Plan(newArgs: seq<NewArg>, newFields: seq<FieldInit>, setters: seq<Setter>)

  /** The generated `impl #generics #name #generics { fn new ...; setters }`. */
  datatype Expansion = Expansion(ident: string, generics: Generics, plan: Plan)

  const EmptyPlan := Plan([], [], [])

  function Append(p: Plan, q: Plan): (r: Plan)
  {
    Plan(p.newArgs + q.newArgs, p.newFields + q.newFields, p.setters + q.setters)
  }

  /** What an attribute asks for; anything but a bare path `new`, `set` or `set_some` is ignored. */
  datatype Directive = NewAttr | SetAttr | SetSomeAttr | OtherAttr

  function DirectiveOf(a: Attribute): (d: Directive)
    ensures d == NewAttr <==> a.meta == MetaPath("new")
    ensures d == SetAttr <==> a.meta == MetaPath("set")
    ensures d == SetSomeAttr <==> a.meta == MetaPath("set_some")
  {
    match a.meta
    case MetaPath(p) =>
      if p == "new" then NewAttr
      else if p == "set" then SetAttr
      else if p == "set_some" then SetSomeAttr
      else OtherAttr
    case _ => OtherAttr
  }

  /** The type `name<args>` (with or without a leading `::`): the only shape `set_some` accepts. */
  function AngleBracketedType(leadingColon: bool, name: string, args: seq<GenericArgument>): (r: Type)
  {
    TypePath(None, Path(leadingColon, [PathSegment(name, AngleBracketed(args))]))
  }

  /**
   * The parameter type a `set_some` setter exposes for a field of type `ty`:
   * the whole argument list between the angle brackets of its only segment.
   * The segment's name and the number of arguments are not checked.
   */
  function SetSomeParam(ty: Type): (r: Result<seq<GenericArgument>, Error>)
    ensures r.Success? ==>
      && ty.TypePath? && |ty.path.segments| == 1
      && ty == AngleBracketedType(ty.path.leadingColon, ty.path.segments[0].ident, r.value)
    ensures !ty.TypePath? ==> r == Failure(SetSomeNotPath)
    ensures ty.TypePath? && ty.qself.Some? ==> r == Failure(SetSomeQualifiedSelf)
    ensures ty.TypePath? && ty.qself.None? && |ty.path.segments| != 1 ==> r == Failure(SetSomeSegmentCount)
    ensures (ty.TypePath? && ty.qself.None? && |ty.path.segments| == 1
             && !ty.path.segments[0].arguments.AngleBracketed?) ==> r == Failure(SetSomeNotAngleBracketed)
  {
    match ty
    case OtherType(_) => Failure(SetSomeNotPath)
    case TypePath(qself, path) =>
      if qself.Some? then Failure(SetSomeQualifiedSelf)
      else if |path.segments| != 1 then Failure(SetSomeSegmentCount)
      else
        match path.segments[0].arguments
        case AngleBracketed(args) => Success(args)
        case _ => Failure(SetSomeNotAngleBracketed)
  }

  /** What one attribute of field `f` adds to the three sequences. */
  function AttrStep(f: Field, a: Attribute): (r: Result<Plan, Error>)
  {
    match DirectiveOf(a)
    case NewAttr => Success(Plan([NewArg(f.ident, f.ty)], [FromArg(f.ident)], []))
    case SetAttr => Success(Plan([], [], [SetterDirect(f.ident, f.ty)]))
    case SetSomeAttr =>
      (match SetSomeParam(f.ty)
       case Success(args) => Success(Plan([], [], [SetterSome(f.ident, args)]))
       case Failure(e) => Failure(e))
    case OtherAttr => Success(EmptyPlan)
  }

  /** What the attributes `attrs` of field `f`, in order, add; the first failing one aborts. */
  function PlanAttrs(f: Field, attrs: seq<Attribute>): (r: Result<Plan, Error>)
    decreases |attrs|
  {
    if attrs == [] then Success(EmptyPlan)
    else
      match PlanAttrs(f, attrs[..|attrs| - 1])
      case Failure(e) => Failure(e)
      case Success(p) =>
        match AttrStep(f, attrs[|attrs| - 1])
        case Failure(e) => Failure(e)
        case Success(q) => Success(Append(p, q))
  }

  predicate HasNew(attrs: seq<Attribute>)
  {
    exists j :: 0 <= j < |attrs| && DirectiveOf(attrs[j]) == NewAttr
  }

  /** What field `f` adds: its attributes' entries, then a default initialiser unless it has `#[new]`. */
  function PlanField(f: Field): (r: Result<Plan, Error>)
  {
    match PlanAttrs(f, f.attrs)
    case Failure(e) => Failure(e)
    case Success(p) =>
      if HasNew(f.attrs) then Success(p)
      else Success(Append(p, Plan([], [DefaultInit(f.ident)], [])))
  }

  /** The plan for the fields `fs`, in declaration order; the first failing field aborts. */
  function PlanFields(fs: seq<Field>): (r: Result<Plan, Error>)
    decreases |fs|
  {
    if fs == [] then Success(EmptyPlan)
    else
      match PlanFields(fs[..|fs| - 1])
      case Failure(e) => Failure(e)
      case Success(p) =>
        match PlanField(fs[|fs| - 1])
        case Failure(e) => Failure(e)
        case Success(q) => Success(Append(p, q))
  }

  /** The expansion of `#[derive(BuildNew)]` on `input`. */
  function Expand(input: DeriveInput): (r: Result<Expansion, Error>)
    ensures !input.data.Struct? ==> r == Failure(NotAStruct)
    ensures input.data.Struct? && !input.data.fields.Named? ==> r == Failure(NotNamedFields)
    ensures r.Success? ==> r.value.ident == input.ident && r.value.generics == input.generics
  {
    match input.data
    case Struct(Named(fs)) =>
      (match PlanFields(fs)
       case Success(p) => Success(Expansion(input.ident, input.generics, p))
       case Failure(e) => Failure(e))
    case Struct(_) => Failure(NotNamedFields)
    case _ => Failure(NotAStruct)
  }

  lemma {:induction false} PlanAttrsFailurePersists(f: Field, attrs: seq<Attribute>, k: nat)
    requires k <= |attrs|
    requires PlanAttrs(f, attrs[..k]).Failure?
    ensures PlanAttrs(f, attrs) == PlanAttrs(f, attrs[..k])
    decreases |attrs| - k
  {
    if k < |attrs| {
      assert attrs[..k + 1][..k] == attrs[..k];
      PlanAttrsFailurePersists(f, attrs, k + 1);
    } else {
      assert attrs[..k] == attrs;
    }
  }

  lemma {:induction false} PlanFieldsFailurePersists(fs: seq<Field>, k: nat)
    requires k <= |fs|
    requires PlanFields(fs[..k]).Failure?
    ensures PlanFields(fs) == PlanFields(fs[..k])
    decreases |fs| - k
  {
    if k < |fs| {
      assert fs[..k + 1][..k] == fs[..k];
      PlanFieldsFailurePersists(fs, k + 1);
    } else {
      assert fs[..k] == fs;
    }
  }

  lemma AppendEmpty(p: Plan)
    ensures Append(p, EmptyPlan) == p
  {
  }

  lemma AppendAssoc(p: Plan, q: Plan, r: Plan)
    ensures Append(Append(p, q), r) == Append(p, Append(q, r))
  {
  }

  /** The entries of one attribute, by the text of its meta. */
  lemma AttrStepByMeta(f: Field, a: Attribute)
    ensures !a.meta.MetaPath? ==> AttrStep(f, a) == Success(EmptyPlan)
    ensures a.meta == MetaPath("new") ==>
              AttrStep(f, a) == Success(Plan([NewArg(f.ident, f.ty)], [FromArg(f.ident)], []))
    ensures a.meta == MetaPath("set") ==> AttrStep(f, a) == Success(Plan([], [], [SetterDirect(f.ident, f.ty)]))
    ensures a.meta == MetaPath("set_some") && SetSomeParam(f.ty).Success? ==>
              AttrStep(f, a) == Success(Plan([], [], [SetterSome(f.ident, SetSomeParam(f.ty).value)]))
    ensures a.meta == MetaPath("set_some") && SetSomeParam(f.ty).Failure? ==>
              AttrStep(f, a) == Failure(SetSomeParam(f.ty).error)
    ensures a.meta.MetaPath? && a.meta.path != "new" && a.meta.path != "set" && a.meta.path != "set_some" ==>
              AttrStep(f, a) == Success(EmptyPlan)
  {
  }

  /**
   * Pushing what attribute `j` asks for onto sequences that hold `before` and
   * the earlier attributes' entries gives `before` and the entries of the
   * first `j + 1` attributes; one `ensures` per directive, stated on the
   * pushed sequences.
   */
  lemma AttrStepExtends(f: Field, attrs: seq<Attribute>, j: nat, before: Plan,
                        args: seq<NewArg>, inits: seq<FieldInit>, setters: seq<Setter>)
    requires j < |attrs|
    requires PlanAttrs(f, attrs[..j]).Success?
    requires DirectiveOf(attrs[j]) == SetSomeAttr ==> SetSomeParam(f.ty).Success?
    requires Plan(args, inits, setters) == Append(before, PlanAttrs(f, attrs[..j]).value)
    ensures PlanAttrs(f, attrs[..j + 1]).Success?
    ensures DirectiveOf(attrs[j]) == NewAttr ==>
              Plan(args + [NewArg(f.ident, f.ty)], inits + [FromArg(f.ident)], setters)
              == Append(before, PlanAttrs(f, attrs[..j + 1]).value)
    ensures DirectiveOf(attrs[j]) == SetAttr ==>
              Plan(args, inits, setters + [SetterDirect(f.ident, f.ty)])
              == Append(before, PlanAttrs(f, attrs[..j + 1]).value)
    ensures DirectiveOf(attrs[j]) == SetSomeAttr ==>
              Plan(args, inits, setters + [SetterSome(f.ident, SetSomeParam(f.ty).value)])
              == Append(before, PlanAttrs(f, attrs[..j + 1]).value)
    ensures DirectiveOf(attrs[j]) == OtherAttr ==>
              Plan(args, inits, setters) == Append(before, PlanAttrs(f, attrs[..j + 1]).value)
    ensures HasNew(attrs[..j + 1]) == (HasNew(attrs[..j]) || DirectiveOf(attrs[j]) == NewAttr)
  {
    assert attrs[..j + 1][..j] == attrs[..j];
    assert attrs[..j + 1][j] == attrs[j];
    AppendAssoc(before, PlanAttrs(f, attrs[..j]).value, AttrStep(f, attrs[j]).value);
    assert args + [] == args && inits + [] == inits && setters + [] == setters;
    if HasNew(attrs[..j]) {
      var k :| 0 <= k < j && DirectiveOf(attrs[..j][k]) == NewAttr;
      assert attrs[..j + 1][k] == attrs[..j][k];
    }
  }

  /** A field whose attributes all succeed extends the plan by their entries and, without `#[new]`, a default. */
  lemma FieldStepExtends(fs: seq<Field>, i: nat, before: Plan)
    requires i < |fs|
    requires PlanFields(fs[..i]) == Success(before)
    requires PlanAttrs(fs[i], fs[i].attrs).Success?
    ensures var p := Append(before, PlanAttrs(fs[i], fs[i].attrs).value);
            PlanFields(fs[..i + 1])
            == Success(if HasNew(fs[i].attrs) then p else Append(p, Plan([], [DefaultInit(fs[i].ident)], [])))
  {
    assert fs[..i + 1][..i] == fs[..i];
    assert fs[..i + 1][i] == fs[i];
    AppendAssoc(before, PlanAttrs(fs[i], fs[i].attrs).value, Plan([], [DefaultInit(fs[i].ident)], []));
  }

  /** A failing attribute of field `i` aborts the whole plan with its error. */
  lemma AttrFailureAborts(fs: seq<Field>, i: nat, j: nat)
    requires i < |fs| && j < |fs[i].attrs|
    requires PlanFields(fs[..i]).Success?
    requires PlanAttrs(fs[i], fs[i].attrs[..j]).Success?
    requires AttrStep(fs[i], fs[i].attrs[j]).Failure?
    ensures PlanFields(fs) == Failure(AttrStep(fs[i], fs[i].attrs[j]).error)
  {
    var f := fs[i];
    assert f.attrs[..j + 1][..j] == f.attrs[..j];
    PlanAttrsFailurePersists(f, f.attrs, j + 1);
    assert fs[..i + 1][..i] == fs[..i];
    PlanFieldsFailurePersists(fs, i + 1);
  }

  /**
   * The macro itself: check the input is a struct with named fields, then walk
   * the fields and, inside each, its attributes, pushing onto the three
   * sequences; `alreadyInFields` records whether the field had `#[new]`.
   */
  method BuildNew(input: DeriveInput) returns (r: Result<Expansion, Error>)
    ensures r == Expand(input)
  {
    if !input.data.Struct? {
      return Failure(NotAStruct);
    }
    if !input.data.fields.Named? {
      return Failure(NotNamedFields);
    }
    var named := input.data.fields.named;

    var newArgs: seq<NewArg> := [];
    var newFields: seq<FieldInit> := [];
    var setters: seq<Setter> := [];
    for i := 0 to |named|
      invariant PlanFields(named[..i]) == Success(Plan(newArgs, newFields, setters))
    {
      var field := named[i];
      var alreadyInFields := false;
      ghost var before := Plan(newArgs, newFields, setters);
      for j := 0 to |field.attrs|
        invariant alreadyInFields == HasNew(field.attrs[..j])
        invariant PlanAttrs(field, field.attrs[..j]).Success?
        invariant Plan(newArgs, newFields, setters) == Append(before, PlanAttrs(field, field.attrs[..j]).value)
      {
        var attr := field.attrs[j];
        if !attr.meta.MetaPath? {
          AttrStepExtends(field, field.attrs, j, before, newArgs, newFields, setters);
          continue;
        }
        var quoted := attr.meta.path;
        if quoted == "new" {
          AttrStepExtends(field, field.attrs, j, before, newArgs, newFields, setters);
          newArgs := newArgs + [NewArg(field.ident, field.ty)];
          newFields := newFields + [FromArg(field.ident)];
          alreadyInFields := true;
        } else if quoted == "set" {
          AttrStepExtends(field, field.attrs, j, before, newArgs, newFields, setters);
          setters := setters + [SetterDirect(field.ident, field.ty)];
        } else if quoted == "set_some" {
          var innerType := SetSomeParam(field.ty);
          if innerType.Failure? {
            assert AttrStep(field, attr) == Failure(innerType.error) by { AttrStepByMeta(field, attr); }
            AttrFailureAborts(named, i, j);
            return Failure(innerType.error);
          }
          AttrStepExtends(field, field.attrs, j, before, newArgs, newFields, setters);
          setters := setters + [SetterSome(field.ident, innerType.value)];
        } else {
          AttrStepExtends(field, field.attrs, j, before, newArgs, newFields, setters);
        }
      }
      assert field.attrs[..|field.attrs|] == field.attrs;
      ghost var attrsPlan := Append(before, PlanAttrs(field, field.attrs).value);
      assert Plan(newArgs, newFields, setters) == attrsPlan;
      if !alreadyInFields {
        newFields := newFields + [DefaultInit(field.ident)];
      }
      FieldStepExtends(named, i, before);
      assert Plan(newArgs, newFields, setters)
             == if alreadyInFields then attrsPlan else Append(attrsPlan, Plan([], [DefaultInit(field.ident)], []));
    }
    assert named[..|named|] == named;
    return Success(Expansion(input.ident, input.generics, Plan(newArgs, newFields, setters)));
  }
}
