/**
 * Worked inputs for `#[derive(BuildNew)]`, each with the expansion or the
 * error the macro gives it.
 */
module DeriveExamples {
  import opened Wrappers
  import opened Syn
  import opened Derive

  function Simple(name: string): (r: Type)
  {
    TypePath(None, Path(false, [PathSegment(name, NoArguments)]))
  }

  function Generic(name: string, args: seq<GenericArgument>): (r: Type)
  {
    TypePath(None, Path(false, [PathSegment(name, AngleBracketed(args))]))
  }

  function Attr(path: string): (r: Attribute)
  {
    Attribute(MetaPath(path))
  }

  function StructOf(fs: seq<Field>): (r: DeriveInput)
  {
    DeriveInput("Item", Generics(""), Struct(Named(fs)))
  }

  /**
   * `struct Item { #[new] id: i32, #[set] label: String, #[set_some] tag: Option<String> }`
   * gets `new(id: i32)` with `label` and `tag` defaulted, a setter `label`
   * taking `String`, and a setter `tag` taking `String` and storing `Some`.
   */
  lemma BuilderExample()
    ensures Expand(StructOf([
              Field([Attr("new")], "id", Simple("i32")),
              Field([Attr("set")], "label", Simple("String")),
              Field([Attr("set_some")], "tag", Generic("Option", [TypeArg(Simple("String"))]))]))
            == Success(Expansion("Item", Generics(""), Plan(
                 [NewArg("id", Simple("i32"))],
                 [FromArg("id"), DefaultInit("label"), DefaultInit("tag")],
                 [SetterDirect("label", Simple("String")), SetterSome("tag", [TypeArg(Simple("String"))])])))
  {
    var id := Field([Attr("new")], "id", Simple("i32"));
    var labelField := Field([Attr("set")], "label", Simple("String"));
    var tag := Field([Attr("set_some")], "tag", Generic("Option", [TypeArg(Simple("String"))]));
    var idArg, setLabel, setTag :=
      NewArg("id", Simple("i32")), SetterDirect("label", Simple("String")), SetterSome("tag", [TypeArg(Simple("String"))]);
    NewOnly(id);
    SetOnly(labelField);
    SetSomeOnly(tag);
    ThreeFields(id, labelField, tag);
    ConcatThree(idArg, FromArg("id"), DefaultInit("label"), DefaultInit("tag"), setLabel, setTag);
  }

  /** A field with one attribute gets exactly that attribute's entries. */
  lemma OneAttribute(f: Field)
    requires |f.attrs| == 1
    ensures PlanAttrs(f, f.attrs) == AttrStep(f, f.attrs[0])
  {
    assert f.attrs[..0] == [];
    if AttrStep(f, f.attrs[0]).Success? {
      var p := AttrStep(f, f.attrs[0]).value;
      assert Append(EmptyPlan, p) == p;
    }
  }

  /** Adding one attribute at the end adds its entries at the end. */
  lemma AttrsSnoc(f: Field, attrs: seq<Attribute>, a: Attribute)
    requires PlanAttrs(f, attrs).Success? && AttrStep(f, a).Success?
    ensures PlanAttrs(f, attrs + [a]) == Success(Append(PlanAttrs(f, attrs).value, AttrStep(f, a).value))
  {
  }

  /** A field whose only attribute is `#[new]` is a parameter of `new` and has no setter. */
  lemma NewOnly(f: Field)
    requires f.attrs == [Attr("new")]
    ensures PlanField(f) == Success(Plan([NewArg(f.ident, f.ty)], [FromArg(f.ident)], []))
  {
    OneAttribute(f);
    assert DirectiveOf(f.attrs[0]) == NewAttr;
  }

  /** A field whose only attribute is `#[set]` is defaulted and has a direct setter. */
  lemma SetOnly(f: Field)
    requires f.attrs == [Attr("set")]
    ensures PlanField(f) == Success(Plan([], [DefaultInit(f.ident)], [SetterDirect(f.ident, f.ty)]))
  {
    OneAttribute(f);
    assert "set"[0] != "new"[0];
    assert !HasNew(f.attrs);
    var setter, init := SetterDirect(f.ident, f.ty), DefaultInit(f.ident);
    assert PlanAttrs(f, f.attrs) == Success(Plan([], [], [setter]));
    assert [] + [init] == [init] && [setter] + [] == [setter];
  }

  /** A field whose only attribute is `#[set_some]`, on a type it accepts, is defaulted and has a `Some` setter. */
  lemma SetSomeOnly(f: Field)
    requires f.attrs == [Attr("set_some")] && SetSomeParam(f.ty).Success?
    ensures PlanField(f) == Success(Plan([], [DefaultInit(f.ident)], [SetterSome(f.ident, SetSomeParam(f.ty).value)]))
  {
    OneAttribute(f);
    assert "set_some"[0] != "new"[0];
    assert !HasNew(f.attrs);
    var setter, init := SetterSome(f.ident, SetSomeParam(f.ty).value), DefaultInit(f.ident);
    assert PlanAttrs(f, f.attrs) == Success(Plan([], [], [setter]));
    assert [] + [init] == [init] && [setter] + [] == [setter];
  }

  /** A struct with three fields gets their entries one field after the other. */
  lemma ThreeFields(a: Field, b: Field, c: Field)
    requires PlanField(a).Success? && PlanField(b).Success? && PlanField(c).Success?
    ensures PlanFields([a, b, c])
            == Success(Append(Append(PlanField(a).value, PlanField(b).value), PlanField(c).value))
  {
    SingleField(a);
    FieldsSnoc([a], b);
    assert [a] + [b] == [a, b];
    FieldsSnoc([a, b], c);
    assert [a, b] + [c] == [a, b, c];
  }

  /** The plans of a `#[new]` field followed by two setter fields, put together. */
  lemma ConcatThree(arg: NewArg, i1: FieldInit, i2: FieldInit, i3: FieldInit, s2: Setter, s3: Setter)
    ensures Append(Append(Plan([arg], [i1], []), Plan([], [i2], [s2])), Plan([], [i3], [s3]))
            == Plan([arg], [i1, i2, i3], [s2, s3])
  {
    assert [arg] + [] + [] == [arg];
    assert [i1] + [i2] + [i3] == [i1, i2, i3];
    assert [] + [s2] + [s3] == [s2, s3];
  }

  /** Adding one field at the end adds its entries at the end. */
  lemma FieldsSnoc(fs: seq<Field>, f: Field)
    requires PlanFields(fs).Success? && PlanField(f).Success?
    ensures PlanFields(fs + [f]) == Success(Append(PlanFields(fs).value, PlanField(f).value))
  {
    assert (fs + [f])[..|fs|] == fs;
  }

  /** A struct with one field gets exactly that field's entries. */
  lemma SingleField(f: Field)
    ensures PlanFields([f]) == PlanField(f)
  {
    assert [f][..0] == [];
    if PlanField(f).Success? {
      var p := PlanField(f).value;
      assert Append(EmptyPlan, p) == p;
    }
  }

  /**
   * `#[new] #[new] id: i32` is pushed twice: `new` takes `id: i32` twice
   * and its body names `id` twice.
   */
  lemma DuplicateNewPushedTwice()
    ensures Expand(StructOf([Field([Attr("new"), Attr("new")], "id", Simple("i32"))]))
            == Success(Expansion("Item", Generics(""), Plan(
                 [NewArg("id", Simple("i32")), NewArg("id", Simple("i32"))],
                 [FromArg("id"), FromArg("id")],
                 [])))
  {
    var f := Field([Attr("new"), Attr("new")], "id", Simple("i32"));
    var arg, init := NewArg("id", Simple("i32")), FromArg("id");
    OneAttribute(f.(attrs := [Attr("new")]));
    AttrsSnoc(f, [Attr("new")], Attr("new"));
    assert [Attr("new")] + [Attr("new")] == f.attrs;
    assert PlanAttrs(f, [Attr("new")]) == Success(Plan([arg], [init], []));
    assert [arg] + [arg] == [arg, arg] && [init] + [init] == [init, init];
    assert HasNew(f.attrs) by { assert DirectiveOf(f.attrs[0]) == NewAttr; }
    SingleField(f);
  }

  /**
   * `#[new] #[set] id: i32` with a doc comment is both a parameter of `new`
   * and a setter; the doc comment is ignored.
   */
  lemma NewFieldMayAlsoHaveSetter()
    ensures Expand(StructOf([Field([Attribute(MetaNameValue("doc", "the key")), Attr("new"), Attr("set")],
                                   "id", Simple("i32"))]))
            == Success(Expansion("Item", Generics(""), Plan(
                 [NewArg("id", Simple("i32"))],
                 [FromArg("id")],
                 [SetterDirect("id", Simple("i32"))])))
  {
    var doc := Attribute(MetaNameValue("doc", "the key"));
    var f := Field([doc, Attr("new"), Attr("set")], "id", Simple("i32"));
    var arg, init, setter := NewArg("id", Simple("i32")), FromArg("id"), SetterDirect("id", Simple("i32"));
    OneAttribute(f.(attrs := [doc]));
    AttrsSnoc(f, [doc], Attr("new"));
    AttrsSnoc(f, [doc, Attr("new")], Attr("set"));
    assert [doc] + [Attr("new")] == [doc, Attr("new")] && [doc, Attr("new")] + [Attr("set")] == f.attrs;
    assert PlanAttrs(f, [doc]) == Success(EmptyPlan);
    assert [] + [arg] == [arg] && [] + [init] == [init] && [] + [setter] == [setter];
    assert [arg] + [] == [arg] && [init] + [] == [init];
    assert HasNew(f.attrs) by { assert DirectiveOf(f.attrs[1]) == NewAttr; }
    SingleField(f);
  }

  /**
   * `#[set] #[set_some] tag: Option<u8>` gets two setters named `tag`, one
   * per attribute: one taking `Option<u8>`, one taking `u8` and storing `Some`.
   */
  lemma SetterPerAttribute()
    ensures Expand(StructOf([Field([Attr("set"), Attr("set_some")], "tag", Generic("Option", [TypeArg(Simple("u8"))]))]))
            == Success(Expansion("Item", Generics(""), Plan(
                 [],
                 [DefaultInit("tag")],
                 [SetterDirect("tag", Generic("Option", [TypeArg(Simple("u8"))])), SetterSome("tag", [TypeArg(Simple("u8"))])])))
  {
    var f := Field([Attr("set"), Attr("set_some")], "tag", Generic("Option", [TypeArg(Simple("u8"))]));
    var direct, some, init := SetterDirect("tag", f.ty), SetterSome("tag", [TypeArg(Simple("u8"))]), DefaultInit("tag");
    OneAttribute(f.(attrs := [Attr("set")]));
    AttrsSnoc(f, [Attr("set")], Attr("set_some"));
    assert [Attr("set")] + [Attr("set_some")] == f.attrs;
    assert "set"[0] != "new"[0] && "set_some"[0] != "new"[0];
    assert PlanAttrs(f, [Attr("set")]) == Success(Plan([], [], [direct]));
    assert SetSomeParam(f.ty) == Success([TypeArg(Simple("u8"))]);
    assert [direct] + [some] == [direct, some] && [] + [init] == [init] && [direct, some] + [] == [direct, some];
    assert PlanAttrs(f, f.attrs) == Success(Plan([], [], [direct, some]));
    assert !HasNew(f.attrs);
    assert PlanField(f) == Success(Plan([], [init], [direct, some]));
    SingleField(f);
  }

  /** `set_some` takes whatever is between the angle brackets, whatever the segment is called. */
  lemma SetSomeDoesNotCheckOption()
    ensures SetSomeParam(Generic("Vec", [TypeArg(Simple("u8"))])) == Success([TypeArg(Simple("u8"))])
    ensures SetSomeParam(Generic("Result", [TypeArg(Simple("A")), TypeArg(Simple("B"))]))
            == Success([TypeArg(Simple("A")), TypeArg(Simple("B"))])
    ensures SetSomeParam(Generic("Option", [])) == Success([])
    ensures SetSomeParam(Generic("Cow", [LifetimeArg("a"), TypeArg(Simple("str"))]))
            == Success([LifetimeArg("a"), TypeArg(Simple("str"))])
  {
  }

  /** Types `set_some` rejects, each with the error of the first check it fails. */
  lemma SetSomeRejections()
    ensures SetSomeParam(OtherType("& str")) == Failure(SetSomeNotPath)
    ensures SetSomeParam(TypePath(Some(QSelf(Simple("T"), 1)), Path(false, [PathSegment("Tr", NoArguments),
                                  PathSegment("X", AngleBracketed([]))])))
            == Failure(SetSomeQualifiedSelf)
    ensures SetSomeParam(TypePath(None, Path(false, [PathSegment("std", NoArguments),
                                  PathSegment("option", NoArguments),
                                  PathSegment("Option", AngleBracketed([TypeArg(Simple("u8"))]))])))
            == Failure(SetSomeSegmentCount)
    ensures SetSomeParam(TypePath(Some(QSelf(Simple("T"), 0)), Path(false, [PathSegment("X", AngleBracketed([TypeArg(Simple("u8"))]))])))
            == Failure(SetSomeQualifiedSelf)
    ensures SetSomeParam(Simple("String")) == Failure(SetSomeNotAngleBracketed)
    ensures Expand(StructOf([Field([Attr("set_some")], "name", Simple("String"))]))
            == Failure(SetSomeNotAngleBracketed)
  {
    var f := Field([Attr("set_some")], "name", Simple("String"));
    OneAttribute(f);
    assert [f][..0] == [];
  }

  /** A struct with named fields, zero of them, gets an empty `new` and no setters. */
  lemma EmptyNamedStructAccepted()
    ensures Expand(StructOf([])) == Success(Expansion("Item", Generics(""), EmptyPlan))
  {
  }

  /** Enums, unions, tuple structs and unit structs are rejected before any field is looked at. */
  lemma NonNamedStructsRejected()
    ensures Expand(DeriveInput("E", Generics(""), Enum(["A", "B"]))) == Failure(NotAStruct)
    ensures Expand(DeriveInput("U", Generics(""), Union([]))) == Failure(NotAStruct)
    ensures Expand(DeriveInput("T", Generics(""), Struct(Unnamed([Simple("i32")])))) == Failure(NotNamedFields)
    ensures Expand(DeriveInput("Z", Generics(""), Struct(Unit))) == Failure(NotNamedFields)
  {
  }
}
