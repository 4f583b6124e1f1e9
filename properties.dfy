/**
 * What the plan of `#[derive(BuildNew)]` is, stated field by field and
 * attribute by attribute rather than as the loop that builds it, and the
 * properties the macro's behaviour promises: when it rejects its input,
 * which fields land in which sequence and in what order, and which
 * attributes do not matter.
 */
module DeriveProperties {
  import opened Wrappers
  import opened Syn
  import opened Derive

  /** `n` copies of `x`. */
  function Repeat<T>(x: T, n: nat): (r: seq<T>)
    ensures |r| == n && forall k :: 0 <= k < n ==> r[k] == x
  {
    if n == 0 then [] else Repeat(x, n - 1) + [x]
  }

  /** How many of `attrs` are `#[new]`. */
  function CountNew(attrs: seq<Attribute>): (r: nat)
  {
    if attrs == [] then 0
    else CountNew(attrs[..|attrs| - 1]) + (if DirectiveOf(attrs[|attrs| - 1]) == NewAttr then 1 else 0)
  }

  predicate HasSetSome(attrs: seq<Attribute>)
  {
    exists j :: 0 <= j < |attrs| && DirectiveOf(attrs[j]) == SetSomeAttr
  }

  /** The constructor parameters field `f` owes: one `ident: ty` for each `#[new]` it carries. */
  function NewArgsOf(f: Field): (r: seq<NewArg>)
  {
    Repeat(NewArg(f.ident, f.ty), CountNew(f.attrs))
  }

  /** The initialisers field `f` owes: one from the parameter per `#[new]`, or one default when it has none. */
  function InitsOf(f: Field): (r: seq<FieldInit>)
  {
    if CountNew(f.attrs) == 0 then [DefaultInit(f.ident)] else Repeat(FromArg(f.ident), CountNew(f.attrs))
  }

  /** The setter attribute `a` of field `f` asks for, if any. */
  function SetterOf(f: Field, a: Attribute): (r: seq<Setter>)
  {
    match DirectiveOf(a)
    case SetAttr => [SetterDirect(f.ident, f.ty)]
    case SetSomeAttr =>
      (match SetSomeParam(f.ty)
       case Success(args) => [SetterSome(f.ident, args)]
       case Failure(_) => [])
    case _ => []
  }

  /** The setters the attributes `attrs` of `f` ask for, in attribute order. */
  function SettersOf(f: Field, attrs: seq<Attribute>): (r: seq<Setter>)
    decreases |attrs|
  {
    if attrs == [] then [] else SettersOf(f, attrs[..|attrs| - 1]) + SetterOf(f, attrs[|attrs| - 1])
  }

  function AllNewArgs(fs: seq<Field>): (r: seq<NewArg>)
    decreases |fs|
  {
    if fs == [] then [] else AllNewArgs(fs[..|fs| - 1]) + NewArgsOf(fs[|fs| - 1])
  }

  function AllInits(fs: seq<Field>): (r: seq<FieldInit>)
    decreases |fs|
  {
    if fs == [] then [] else AllInits(fs[..|fs| - 1]) + InitsOf(fs[|fs| - 1])
  }

  function AllSetters(fs: seq<Field>): (r: seq<Setter>)
    decreases |fs|
  {
    if fs == [] then [] else AllSetters(fs[..|fs| - 1]) + SettersOf(fs[|fs| - 1], fs[|fs| - 1].attrs)
  }

  /** The fields of an input that the macro accepts as a struct with named fields. */
  function NamedFields(input: DeriveInput): (r: seq<Field>)
    requires input.data.Struct? && input.data.fields.Named?
  {
    input.data.fields.named
  }

  // ---------------------------------------------------------------------------
  // Per-field shape of the plan
  // ---------------------------------------------------------------------------

  lemma {:induction false} HasNewIffCountNew(attrs: seq<Attribute>)
    ensures HasNew(attrs) <==> CountNew(attrs) > 0
    decreases |attrs|
  {
    if attrs != [] {
      var init := attrs[..|attrs| - 1];
      HasNewIffCountNew(init);
      if HasNew(init) {
        var k :| 0 <= k < |init| && DirectiveOf(init[k]) == NewAttr;
        assert attrs[k] == init[k];
      }
      if HasNew(attrs) && DirectiveOf(attrs[|attrs| - 1]) != NewAttr {
        var k :| 0 <= k < |attrs| && DirectiveOf(attrs[k]) == NewAttr;
        assert init[k] == attrs[k];
      }
    }
  }

  /** The entries the attributes of a field add: its `#[new]` parameters and initialisers, and its setters. */
  lemma {:induction false} PlanAttrsShape(f: Field, attrs: seq<Attribute>)
    requires PlanAttrs(f, attrs).Success?
    ensures PlanAttrs(f, attrs).value
            == Plan(Repeat(NewArg(f.ident, f.ty), CountNew(attrs)),
                    Repeat(FromArg(f.ident), CountNew(attrs)),
                    SettersOf(f, attrs))
    decreases |attrs|
  {
    if attrs != [] {
      PlanAttrsShape(f, attrs[..|attrs| - 1]);
    }
  }

  lemma PlanFieldShape(f: Field)
    requires PlanField(f).Success?
    ensures PlanField(f).value == Plan(NewArgsOf(f), InitsOf(f), SettersOf(f, f.attrs))
  {
    PlanAttrsShape(f, f.attrs);
    HasNewIffCountNew(f.attrs);
  }

  lemma {:induction false} PlanFieldsShape(fs: seq<Field>)
    requires PlanFields(fs).Success?
    ensures PlanFields(fs).value == Plan(AllNewArgs(fs), AllInits(fs), AllSetters(fs))
    decreases |fs|
  {
    if fs != [] {
      PlanFieldsShape(fs[..|fs| - 1]);
      PlanFieldShape(fs[|fs| - 1]);
    }
  }

  // ---------------------------------------------------------------------------
  // The three sequences of an accepted input
  // ---------------------------------------------------------------------------

  /**
   * `new_args` holds, field after field in declaration order, one
   * `ident: ty` per `#[new]` attribute of the field; fields without `#[new]`
   * contribute nothing.
   */
  lemma NewArgsPerNewAttribute(input: DeriveInput)
    requires Expand(input).Success?
    ensures Expand(input).value.plan.newArgs == AllNewArgs(NamedFields(input))
  {
    PlanFieldsShape(NamedFields(input));
  }

  /**
   * `new_fields` holds, field after field in declaration order, one
   * initialiser from the parameter per `#[new]` of the field, or a single
   * `Default::default()` initialiser when the field has no `#[new]`.
   */
  lemma InitialisersPerField(input: DeriveInput)
    requires Expand(input).Success?
    ensures Expand(input).value.plan.newFields == AllInits(NamedFields(input))
  {
    PlanFieldsShape(NamedFields(input));
  }

  /**
   * `setters` holds, field after field and within a field attribute after
   * attribute, one entry per `#[set]` (exposing the field's type) or
   * `#[set_some]` (exposing the angle-bracketed arguments of its type).
   */
  lemma SettersPerSetterAttribute(input: DeriveInput)
    requires Expand(input).Success?
    ensures Expand(input).value.plan.setters == AllSetters(NamedFields(input))
  {
    PlanFieldsShape(NamedFields(input));
  }

  lemma {:induction false} AllInitsExactlyOnce(fs: seq<Field>)
    requires forall i :: 0 <= i < |fs| ==> CountNew(fs[i].attrs) <= 1
    ensures |AllInits(fs)| == |fs|
    ensures forall i :: 0 <= i < |fs| ==>
              AllInits(fs)[i] == if HasNew(fs[i].attrs) then FromArg(fs[i].ident) else DefaultInit(fs[i].ident)
    decreases |fs|
  {
    if fs != [] {
      var init := fs[..|fs| - 1];
      AllInitsExactlyOnce(init);
      HasNewIffCountNew(fs[|fs| - 1].attrs);
      forall i | 0 <= i < |fs|
        ensures AllInits(fs)[i] == if HasNew(fs[i].attrs) then FromArg(fs[i].ident) else DefaultInit(fs[i].ident)
      {
        if i < |fs| - 1 {
          assert fs[i] == init[i];
        }
      }
    }
  }

  /**
   * When no field carries `#[new]` twice, the body of `new` initialises
   * every field exactly once, in declaration order: from its parameter when
   * the field has `#[new]`, with `Default::default()` otherwise.
   */
  lemma ConstructorInitialisesEachFieldOnce(input: DeriveInput)
    requires Expand(input).Success?
    requires forall i :: 0 <= i < |NamedFields(input)| ==> CountNew(NamedFields(input)[i].attrs) <= 1
    ensures var fs, inits := NamedFields(input), Expand(input).value.plan.newFields;
            && |inits| == |fs|
            && forall i :: 0 <= i < |fs| ==>
                 inits[i] == if HasNew(fs[i].attrs) then FromArg(fs[i].ident) else DefaultInit(fs[i].ident)
  {
    InitialisersPerField(input);
    AllInitsExactlyOnce(NamedFields(input));
  }

  lemma {:induction false} DefaultInitMembership(fs: seq<Field>, name: string)
    ensures DefaultInit(name) in AllInits(fs) <==>
              exists i :: 0 <= i < |fs| && fs[i].ident == name && !HasNew(fs[i].attrs)
    decreases |fs|
  {
    if fs != [] {
      var init, last := fs[..|fs| - 1], fs[|fs| - 1];
      DefaultInitMembership(init, name);
      HasNewIffCountNew(last.attrs);
      assert AllInits(fs) == AllInits(init) + InitsOf(last);
      if DefaultInit(name) in AllInits(init) {
        var i :| 0 <= i < |init| && init[i].ident == name && !HasNew(init[i].attrs);
        assert fs[i] == init[i];
      } else if DefaultInit(name) in InitsOf(last) {
        assert fs[|fs| - 1] == last;
      }
      if exists i :: 0 <= i < |fs| && fs[i].ident == name && !HasNew(fs[i].attrs) {
        var i :| 0 <= i < |fs| && fs[i].ident == name && !HasNew(fs[i].attrs);
        if i < |init| {
          assert init[i] == fs[i];
        } else {
          assert InitsOf(last) == [DefaultInit(name)];
        }
      }
    }
  }

  lemma {:induction false} FromArgMembership(fs: seq<Field>, name: string)
    ensures FromArg(name) in AllInits(fs) <==>
              exists i :: 0 <= i < |fs| && fs[i].ident == name && HasNew(fs[i].attrs)
    decreases |fs|
  {
    if fs != [] {
      var init, last := fs[..|fs| - 1], fs[|fs| - 1];
      FromArgMembership(init, name);
      HasNewIffCountNew(last.attrs);
      assert AllInits(fs) == AllInits(init) + InitsOf(last);
      if FromArg(name) in AllInits(init) {
        var i :| 0 <= i < |init| && init[i].ident == name && HasNew(init[i].attrs);
        assert fs[i] == init[i];
      } else if FromArg(name) in InitsOf(last) {
        assert fs[|fs| - 1] == last;
      }
      if exists i :: 0 <= i < |fs| && fs[i].ident == name && HasNew(fs[i].attrs) {
        var i :| 0 <= i < |fs| && fs[i].ident == name && HasNew(fs[i].attrs);
        if i < |init| {
          assert init[i] == fs[i];
        } else {
          assert InitsOf(last)[0] == FromArg(name);
        }
      }
    }
  }

  /**
   * A field receives a `Default::default()` initialiser exactly when it
   * carries no `#[new]`, and an initialiser from the parameter exactly when
   * it carries one; setter attributes play no part.
   */
  lemma DefaultInitIffNoNew(input: DeriveInput, name: string)
    requires Expand(input).Success?
    ensures var fs, inits := NamedFields(input), Expand(input).value.plan.newFields;
            && (DefaultInit(name) in inits <==>
                  exists i :: 0 <= i < |fs| && fs[i].ident == name && !HasNew(fs[i].attrs))
            && (FromArg(name) in inits <==>
                  exists i :: 0 <= i < |fs| && fs[i].ident == name && HasNew(fs[i].attrs))
  {
    InitialisersPerField(input);
    DefaultInitMembership(NamedFields(input), name);
    FromArgMembership(NamedFields(input), name);
  }

  lemma {:induction false} AllNewArgsMembership(fs: seq<Field>, arg: NewArg)
    ensures arg in AllNewArgs(fs) <==>
              exists i :: 0 <= i < |fs| && arg == NewArg(fs[i].ident, fs[i].ty) && HasNew(fs[i].attrs)
    decreases |fs|
  {
    if fs != [] {
      var init, last := fs[..|fs| - 1], fs[|fs| - 1];
      AllNewArgsMembership(init, arg);
      HasNewIffCountNew(last.attrs);
      assert forall i :: 0 <= i < |init| ==> init[i] == fs[i];
      if CountNew(last.attrs) > 0 {
        assert NewArgsOf(last)[0] == NewArg(last.ident, last.ty);
      }
    }
  }

  /** `new` takes the parameter `ident: ty` exactly when some field `ident: ty` carries `#[new]`. */
  lemma NewArgIffNewAttribute(input: DeriveInput, arg: NewArg)
    requires Expand(input).Success?
    ensures var fs := NamedFields(input);
            arg in Expand(input).value.plan.newArgs <==>
              exists i :: 0 <= i < |fs| && arg == NewArg(fs[i].ident, fs[i].ty) && HasNew(fs[i].attrs)
  {
    NewArgsPerNewAttribute(input);
    AllNewArgsMembership(NamedFields(input), arg);
  }

  // ---------------------------------------------------------------------------
  // When the macro rejects its input
  // ---------------------------------------------------------------------------

  lemma {:induction false} PlanAttrsSucceedsIff(f: Field, attrs: seq<Attribute>)
    ensures PlanAttrs(f, attrs).Success? <==> (HasSetSome(attrs) ==> SetSomeParam(f.ty).Success?)
    decreases |attrs|
  {
    if attrs != [] {
      var init := attrs[..|attrs| - 1];
      PlanAttrsSucceedsIff(f, init);
      if HasSetSome(init) {
        var k :| 0 <= k < |init| && DirectiveOf(init[k]) == SetSomeAttr;
        assert attrs[k] == init[k];
      }
      if HasSetSome(attrs) && DirectiveOf(attrs[|attrs| - 1]) != SetSomeAttr {
        var k :| 0 <= k < |attrs| && DirectiveOf(attrs[k]) == SetSomeAttr;
        assert init[k] == attrs[k];
      }
    }
  }

  lemma {:induction false} PlanFieldsSucceedsIff(fs: seq<Field>)
    ensures PlanFields(fs).Success? <==>
              forall i :: 0 <= i < |fs| && HasSetSome(fs[i].attrs) ==> SetSomeParam(fs[i].ty).Success?
    decreases |fs|
  {
    if fs != [] {
      var init, last := fs[..|fs| - 1], fs[|fs| - 1];
      PlanFieldsSucceedsIff(init);
      PlanAttrsSucceedsIff(last, last.attrs);
      assert forall i :: 0 <= i < |init| ==> init[i] == fs[i];
    }
  }

  lemma {:induction false} PlanAttrsFailureError(f: Field, attrs: seq<Attribute>)
    requires PlanAttrs(f, attrs).Failure?
    ensures SetSomeParam(f.ty) == Failure(PlanAttrs(f, attrs).error)
    decreases |attrs|
  {
    var init := attrs[..|attrs| - 1];
    if PlanAttrs(f, init).Failure? {
      PlanAttrsFailureError(f, init);
    }
  }

  /** The field that aborts is the first one whose `#[set_some]` meets a type of the wrong shape. */
  predicate FirstRejected(fs: seq<Field>, i: int, e: Error)
  {
    && 0 <= i < |fs| && HasSetSome(fs[i].attrs) && SetSomeParam(fs[i].ty) == Failure(e)
    && forall k :: 0 <= k < i && HasSetSome(fs[k].attrs) ==> SetSomeParam(fs[k].ty).Success?
  }

  lemma {:induction false} PlanFieldsFailureError(fs: seq<Field>)
    requires PlanFields(fs).Failure?
    ensures exists i :: FirstRejected(fs, i, PlanFields(fs).error)
    decreases |fs|
  {
    var init, last := fs[..|fs| - 1], fs[|fs| - 1];
    assert forall k :: 0 <= k < |init| ==> init[k] == fs[k];
    if PlanFields(init).Failure? {
      PlanFieldsFailureError(init);
      var i :| FirstRejected(init, i, PlanFields(init).error);
      assert FirstRejected(fs, i, PlanFields(fs).error);
    } else {
      PlanFieldsSucceedsIff(init);
      PlanAttrsSucceedsIff(last, last.attrs);
      PlanAttrsFailureError(last, last.attrs);
      assert FirstRejected(fs, |fs| - 1, PlanFields(fs).error);
    }
  }

  /**
   * When a struct with named fields is rejected, the error is the one
   * `set_some` raises for the first field, in declaration order, that
   * carries `#[set_some]` on a type of the wrong shape.
   */
  lemma RejectionNamesFirstBadField(input: DeriveInput)
    requires input.data.Struct? && input.data.fields.Named?
    requires Expand(input).Failure?
    ensures exists i :: FirstRejected(NamedFields(input), i, Expand(input).error)
  {
    PlanFieldsFailureError(NamedFields(input));
  }

  /**
   * The macro produces an expansion exactly when the input is a struct with
   * named fields and every field carrying `#[set_some]` has a type of the
   * shape `name<args>`: a path type without qualified self, of one segment,
   * with angle-bracketed arguments. Otherwise it aborts and there is no plan.
   */
  lemma ExpandSucceedsIff(input: DeriveInput)
    ensures Expand(input).Success? <==>
              && input.data.Struct? && input.data.fields.Named?
              && forall i :: 0 <= i < |NamedFields(input)| && HasSetSome(NamedFields(input)[i].attrs) ==>
                   SetSomeParam(NamedFields(input)[i].ty).Success?
  {
    if input.data.Struct? && input.data.fields.Named? {
      PlanFieldsSucceedsIff(NamedFields(input));
    }
  }

  /** `set_some` on a field whose type has not the shape `name<args>` aborts the macro. */
  lemma SetSomeOnWrongShapeRejected(input: DeriveInput, i: nat)
    requires input.data.Struct? && input.data.fields.Named?
    requires i < |NamedFields(input)|
    requires HasSetSome(NamedFields(input)[i].attrs)
    requires !(exists lc, name, args :: NamedFields(input)[i].ty == AngleBracketedType(lc, name, args))
    ensures Expand(input).Failure?
  {
    ExpandSucceedsIff(input);
    var ty := NamedFields(input)[i].ty;
    if SetSomeParam(ty).Success? {
      assert ty == AngleBracketedType(ty.path.leadingColon, ty.path.segments[0].ident, SetSomeParam(ty).value);
    }
  }

  /** The type-shape check of `set_some` hands back exactly the argument list of any `name<args>`. */
  lemma SetSomeParamRecoversArguments(leadingColon: bool, name: string, args: seq<GenericArgument>)
    ensures SetSomeParam(AngleBracketedType(leadingColon, name, args)) == Success(args)
  {
  }

  // ---------------------------------------------------------------------------
  // Attributes that do not matter
  // ---------------------------------------------------------------------------

  /** The attributes of `attrs` whose directive is one of `keep`, in order. */
  function Keep(attrs: seq<Attribute>, keep: set<Directive>): (r: seq<Attribute>)
    decreases |attrs|
  {
    if attrs == [] then []
    else Keep(attrs[..|attrs| - 1], keep)
         + (if DirectiveOf(attrs[|attrs| - 1]) in keep then [attrs[|attrs| - 1]] else [])
  }

  function KeepFields(fs: seq<Field>, keep: set<Directive>): (r: seq<Field>)
    ensures |r| == |fs|
    ensures forall i :: 0 <= i < |fs| ==> r[i] == fs[i].(attrs := Keep(fs[i].attrs, keep))
    decreases |fs|
  {
    if fs == [] then []
    else KeepFields(fs[..|fs| - 1], keep) + [fs[|fs| - 1].(attrs := Keep(fs[|fs| - 1].attrs, keep))]
  }

  /** `input` with, on every named field, only the attributes whose directive is one of `keep`. */
  function KeepInput(input: DeriveInput, keep: set<Directive>): (r: DeriveInput)
  {
    match input.data
    case Struct(Named(fs)) => input.(data := Struct(Named(KeepFields(fs, keep))))
    case _ => input
  }

  lemma {:induction false} CountNewKept(attrs: seq<Attribute>, keep: set<Directive>)
    requires NewAttr in keep
    ensures CountNew(Keep(attrs, keep)) == CountNew(attrs)
    decreases |attrs|
  {
    if attrs != [] {
      var init, last := attrs[..|attrs| - 1], attrs[|attrs| - 1];
      CountNewKept(init, keep);
      var kept := Keep(attrs, keep);
      if DirectiveOf(last) in keep {
        assert kept[..|kept| - 1] == Keep(init, keep);
        assert kept[|kept| - 1] == last;
      } else {
        assert kept == Keep(init, keep);
        assert DirectiveOf(last) != NewAttr;
      }
    }
  }

  /**
   * Dropping the attributes that are neither `new`, `set` nor `set_some`
   * leaves what the attributes add unchanged, for any field of the same name
   * and type.
   */
  lemma {:induction false} KeepPlanAttrs(f: Field, g: Field, attrs: seq<Attribute>, keep: set<Directive>)
    requires f.ident == g.ident && f.ty == g.ty
    requires NewAttr in keep && SetAttr in keep && SetSomeAttr in keep
    ensures PlanAttrs(g, Keep(attrs, keep)) == PlanAttrs(f, attrs)
    ensures HasNew(Keep(attrs, keep)) == HasNew(attrs)
    decreases |attrs|
  {
    if attrs != [] {
      var init, last := attrs[..|attrs| - 1], attrs[|attrs| - 1];
      KeepPlanAttrs(f, g, init, keep);
      var kept := Keep(attrs, keep);
      assert AttrStep(g, last) == AttrStep(f, last);
      if DirectiveOf(last) in keep {
        assert kept[..|kept| - 1] == Keep(init, keep);
        assert kept[|kept| - 1] == last;
      } else {
        assert kept == Keep(init, keep);
        if PlanAttrs(f, init).Success? {
          AppendEmpty(PlanAttrs(f, init).value);
        }
      }
    }
    CountNewKept(attrs, keep);
    HasNewIffCountNew(attrs);
    HasNewIffCountNew(Keep(attrs, keep));
  }

  lemma {:induction false} KeepPlanFields(fs: seq<Field>, keep: set<Directive>)
    requires NewAttr in keep && SetAttr in keep && SetSomeAttr in keep
    ensures PlanFields(KeepFields(fs, keep)) == PlanFields(fs)
    decreases |fs|
  {
    if fs != [] {
      var init, last := fs[..|fs| - 1], fs[|fs| - 1];
      var kept := KeepFields(fs, keep);
      assert kept[..|kept| - 1] == KeepFields(init, keep);
      KeepPlanFields(init, keep);
      KeepPlanAttrs(last, kept[|kept| - 1], last.attrs, keep);
    }
  }

  /**
   * Attributes that are not a bare `new`, `set` or `set_some` (list and
   * name-value attributes such as doc comments, other paths) are ignored:
   * removing them from every field leaves the outcome unchanged.
   */
  lemma IgnoredAttributesChangeNothing(input: DeriveInput)
    ensures Expand(KeepInput(input, {NewAttr, SetAttr, SetSomeAttr})) == Expand(input)
  {
    if input.data.Struct? && input.data.fields.Named? {
      KeepPlanFields(NamedFields(input), {NewAttr, SetAttr, SetSomeAttr});
    }
  }

  lemma {:induction false} SettersOfWithoutSetterAttrs(f: Field, attrs: seq<Attribute>, keep: set<Directive>)
    requires SetAttr !in keep && SetSomeAttr !in keep
    ensures SettersOf(f, Keep(attrs, keep)) == []
    ensures !HasSetSome(Keep(attrs, keep))
    decreases |attrs|
  {
    if attrs != [] {
      var init, last := attrs[..|attrs| - 1], attrs[|attrs| - 1];
      SettersOfWithoutSetterAttrs(f, init, keep);
      var kept := Keep(attrs, keep);
      if DirectiveOf(last) in keep {
        assert kept[..|kept| - 1] == Keep(init, keep);
        assert kept[|kept| - 1] == last;
      } else {
        assert kept == Keep(init, keep);
      }
    }
  }

  lemma {:induction false} KeptFieldsSameConstructor(fs: seq<Field>, keep: set<Directive>)
    requires NewAttr in keep
    ensures AllNewArgs(KeepFields(fs, keep)) == AllNewArgs(fs)
    ensures AllInits(KeepFields(fs, keep)) == AllInits(fs)
    decreases |fs|
  {
    if fs != [] {
      var init := fs[..|fs| - 1];
      var kept := KeepFields(fs, keep);
      assert kept[..|kept| - 1] == KeepFields(init, keep);
      KeptFieldsSameConstructor(init, keep);
      CountNewKept(fs[|fs| - 1].attrs, keep);
    }
  }

  lemma {:induction false} KeptFieldsNoSetters(fs: seq<Field>, keep: set<Directive>)
    requires SetAttr !in keep && SetSomeAttr !in keep
    ensures AllSetters(KeepFields(fs, keep)) == []
    ensures forall i :: 0 <= i < |fs| ==> !HasSetSome(KeepFields(fs, keep)[i].attrs)
    decreases |fs|
  {
    if fs != [] {
      var init := fs[..|fs| - 1];
      var kept := KeepFields(fs, keep);
      assert kept[..|kept| - 1] == KeepFields(init, keep);
      KeptFieldsNoSetters(init, keep);
      SettersOfWithoutSetterAttrs(kept[|kept| - 1], fs[|fs| - 1].attrs, keep);
      forall i | 0 <= i < |fs|
        ensures !HasSetSome(kept[i].attrs)
      {
        SettersOfWithoutSetterAttrs(fs[i], fs[i].attrs, keep);
      }
    }
  }

  /**
   * Setter attributes never affect the constructor: removing every `set`
   * and `set_some` attribute from a struct with named fields gives an
   * expansion with the same parameters and initialisers and no setters.
   */
  lemma SetterAttributesDoNotAffectConstructor(input: DeriveInput)
    requires Expand(input).Success?
    ensures var stripped := Expand(KeepInput(input, {NewAttr, OtherAttr}));
            && stripped.Success?
            && stripped.value.plan.newArgs == Expand(input).value.plan.newArgs
            && stripped.value.plan.newFields == Expand(input).value.plan.newFields
            && stripped.value.plan.setters == []
  {
    var fs, keep := NamedFields(input), {NewAttr, OtherAttr};
    KeptFieldsSameConstructor(fs, keep);
    KeptFieldsNoSetters(fs, keep);
    PlanFieldsSucceedsIff(KeepFields(fs, keep));
    PlanFieldsShape(fs);
    PlanFieldsShape(KeepFields(fs, keep));
  }

  // ---------------------------------------------------------------------------
  // Determinism and pass-through
  // ---------------------------------------------------------------------------

  /**
   * The plan depends on the fields alone: two inputs with the same data and
   * any names and generic parameters are accepted or rejected alike and get
   * the same three sequences, each attached to its own name and generics.
   */
  lemma PlanDependsOnFieldsAlone(a: DeriveInput, b: DeriveInput)
    requires a.data == b.data
    ensures Expand(a).Success? == Expand(b).Success?
    ensures Expand(a).Success? ==> Expand(a).value.plan == Expand(b).value.plan
    ensures Expand(a).Failure? ==> Expand(a).error == Expand(b).error
  {
  }
}
