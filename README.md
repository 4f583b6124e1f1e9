# `#[derive(BuildNew)]` in Dafny

The crate bldgen-rs offers one procedural macro, `#[derive(BuildNew)]`. It
goes on a struct with named fields and generates an `impl` block with two
parts:

- a constructor `new`, whose parameters are the fields marked `#[new]`;
- builder-style setters, one per `#[set]` attribute (it takes the field's
  type) and one per `#[set_some]` attribute (it takes the angle-bracketed
  arguments of the field's type, the `T` of `Option<T>`, and stores
  `Some(value)`).

A field without `#[new]` is initialised with `Default::default()`. The macro
panics when:

- the input is not a struct;
- its fields are not named (a tuple or unit struct); a struct with named
  fields, even zero of them, is accepted;
- a `#[set_some]` field's type is not a path type, has a qualified self
  (`<T>::X<u8>`), has other than one segment, or has no angle brackets on
  that segment.

This project models that macro. The input is an abstract syntax tree shaped
after the `syn` crate's `DeriveInput`. The output is the three lists the macro
fills before quoting them:

- `new_args`: the constructor parameters;
- `new_fields`: the initialisers in the body of `new`;
- `setters`.

Alongside them it keeps the struct's name and generics. Each panic is one
case of an `Error` datatype.

Files:

- `wrappers.dfy`: `Option` and `Result`.
- `syn.dfy`: the input syntax. Types are split into path types, with their
  qualified self, segments and segment arguments, and all other types.
  Attribute metas are split into bare paths, lists and name-value pairs. The
  struct body can have named fields, unnamed fields or be a unit struct.
- `derive.dfy`: the model itself.
  - The specification functions: `DirectiveOf`, `SetSomeParam`, `AttrStep`,
    `PlanAttrs`, `PlanField`, `PlanFields` and `Expand`.
  - The method `BuildNew`. It walks the fields and their attributes with two
    loops and pushes onto three sequences, as the macro does. It is proved to
    produce exactly `Expand(input)`.
- `properties.dfy`: what the expansion means.
  - Each list is characterised in full.
  - When no field carries `#[new]` twice, the constructor initialises each
    field exactly once.
  - The membership if-and-only-ifs.
  - When the macro succeeds, and which error it reports otherwise.
  - Ignored attributes make no difference.
  - Setter attributes do not affect the constructor.
- `examples.dfy`: concrete structs with the exact expansion or error.

Where the code and the summary above differ, the model follows the code.

- `#[set_some]` does not check that the type is called `Option`, nor that it
  has one argument. It exposes the whole angle-bracketed argument list
  (`src/lib.rs:55-60`). So `Vec<u8>`, `Result<A, B>`, `Option<>` and
  `::Option<T>` are all accepted.
- `new_fields` holds both kinds of initialiser, in field order: the bare
  `ident` of a `#[new]` field and `ident: Default::default()` for any other
  field (`src/lib.rs:37`, `src/lib.rs:73-75`).
- A field carrying `#[new]` twice is pushed twice (`src/lib.rs:35-38`).
- A field carrying several setter attributes, such as `#[set] #[set_some]` or
  `#[set]` twice, gets one setter per attribute, all with the field's name
  (`src/lib.rs:28`, `src/lib.rs:40-47`, `src/lib.rs:62-67`).
- An attribute name is the text of its whole path (`src/lib.rs:32`). So only
  the bare paths `new`, `set` and `set_some` count. Lists such as
  `#[new(x)]`, name-value attributes and longer paths are ignored
  (`src/lib.rs:29-31`, `src/lib.rs:69`).

## Model

| member | source | states |
|---|---|---|
| `Derive.BuildNew` | src/lib.rs:6-91 | The macro's two nested loops over fields and attributes, with their pushes and early aborts, produce exactly the expansion or error `Expand` specifies. The loop invariants tie the three growing sequences to the plan of the fields and attributes seen so far. |
| `Derive.Expand` | src/lib.rs:12-18 | Enums and unions are rejected with `NotAStruct`. Tuple and unit structs are rejected with `NotNamedFields`. On success the expansion records the input's name and generics as given. |
| `Derive.DirectiveOf` | src/lib.rs:29-35 | An attribute is `new`, `set` or `set_some` exactly when its meta is the bare path with that text; every other attribute is ignored. |
| `Derive.SetSomeParam` | src/lib.rs:49-60 | On success, the field's type is a one-segment path `name<args>` and the result is exactly `args`. Each failure matches the first check the type fails, in the macro's order: not a path type, qualified self, segment count other than one, no angle brackets. |
| `DeriveProperties.SetSomeParamRecoversArguments` | src/lib.rs:55-60 | Every type of the shape `name<args>` is accepted, whatever the segment name and the number of arguments, and yields `args`. |
| `DeriveProperties.NewArgsPerNewAttribute` | src/lib.rs:35-36 | `new_args` is, field after field, one `ident: ty` per `#[new]` the field carries. |
| `DeriveProperties.InitialisersPerField` | src/lib.rs:37-75 | `new_fields` is, field after field, one bare `ident` per `#[new]`, or one `ident: Default::default()` when the field has none. |
| `DeriveProperties.SettersPerSetterAttribute` | src/lib.rs:40-67 | `setters` is, field after field and attribute after attribute, one direct setter over the field's type per `#[set]` and one `Some`-wrapping setter over the angle-bracketed arguments per `#[set_some]`. |
| `DeriveProperties.ConstructorInitialisesEachFieldOnce` | src/lib.rs:23-75 | If no field carries `#[new]` twice, the body of `new` has exactly one initialiser per field. It is in declaration order: the parameter for a `#[new]` field, `Default::default()` otherwise. |
| `DeriveProperties.DefaultInitIffNoNew` | src/lib.rs:73-75 | `name: Default::default()` is in the body of `new` if and only if some field `name` lacks `#[new]`. The bare `name` is there if and only if some field `name` has `#[new]`. |
| `DeriveProperties.NewArgIffNewAttribute` | src/lib.rs:23-36 | `ident: ty` is a parameter of `new` if and only if some field with that name and type carries `#[new]`. |
| `DeriveProperties.ExpandSucceedsIff` | src/lib.rs:12-59 | The macro produces an expansion if and only if the input meets both conditions. It is a struct with named fields. Every `#[set_some]` field has a type `set_some` accepts. |
| `DeriveProperties.RejectionNamesFirstBadField` | src/lib.rs:23-59 | If a struct with named fields is rejected, the error is the one `set_some` raises for the first field, in declaration order, whose type it refuses. Every `#[set_some]` field before that one is accepted. |
| `DeriveProperties.SetSomeOnWrongShapeRejected` | src/lib.rs:48-59 | A `#[set_some]` field whose type is not of the shape `name<args>` makes the macro abort. |
| `DeriveProperties.IgnoredAttributesChangeNothing` | src/lib.rs:28-34 | Removing every attribute other than the bare `new`, `set` and `set_some` leaves the result unchanged, whether expansion or error. |
| `DeriveProperties.SetterAttributesDoNotAffectConstructor` | src/lib.rs:40-75 | Removing every `#[set]` and `#[set_some]` from an accepted struct preserves acceptance. The constructor's parameters and body stay the same, and the setters are removed. |
| `DeriveProperties.PlanDependsOnFieldsAlone` | src/lib.rs:9-10 | The struct's name and generics do not influence what is generated. Two inputs with the same body are accepted or rejected alike, with the same lists or the same error. |
| `DeriveExamples.BuilderExample` | src/lib.rs:20-88 | `struct Item { #[new] id: i32, #[set] label: String, #[set_some] tag: Option<String> }` expands to `new(id: i32)`. Its body is `id`, `label: Default::default()`, `tag: Default::default()`. There is a setter `label(String)` and a setter `tag(String)` that stores `Some`. |
| `DeriveExamples.DuplicateNewPushedTwice` | src/lib.rs:35-38 | `#[new] #[new] id: i32` makes `new` take `id: i32` twice, and the body names `id` twice. |
| `DeriveExamples.NewFieldMayAlsoHaveSetter` | src/lib.rs:28-47 | A field with a doc comment, `#[new]` and `#[set]` is both a parameter of `new` and a setter. The doc comment is ignored. |
| `DeriveExamples.SetterPerAttribute` | src/lib.rs:40-67 | `#[set] #[set_some] tag: Option<u8>` gets two setters named `tag`: one taking `Option<u8>`, one taking `u8` and storing `Some`. The field keeps its `Default::default()` initialiser. |
| `DeriveExamples.SetSomeDoesNotCheckOption` | src/lib.rs:55-60 | `set_some` accepts `Vec<u8>`, `Result<A, B>`, `Option<>` and `Cow<'a, str>` and exposes their whole argument lists. |
| `DeriveExamples.SetSomeRejections` | src/lib.rs:49-59 | `&str`, `<T as Tr>::X<>`, `<T>::X<u8>`, `std::option::Option<u8>` and `String` are each refused with their own error. A struct with `#[set_some] name: String` is rejected. |
| `DeriveExamples.EmptyNamedStructAccepted` | src/lib.rs:16-23 | `struct Item {}` has named fields, zero of them, and is accepted: `new` takes no parameters and has an empty body, and there are no setters. |
| `DeriveExamples.NonNamedStructsRejected` | src/lib.rs:12-18 | Enums, unions, tuple structs and unit structs are rejected with the matching error. |

## Left out

- Parsing the token stream into `DeriveInput`, and turning the result back
  into tokens (`src/lib.rs:7`, `src/lib.rs:90`). The model starts from the
  parsed syntax tree and ends at the three lists. It does not render them
  through `quote!`.
- The stringification `quote!(#path).to_string()` (`src/lib.rs:32`). A path
  meta carries its text directly. Lists and name-value metas are their own
  cases.
- The shape of the generated code (`src/lib.rs:41-46`, `src/lib.rs:62-67`,
  `src/lib.rs:78-88`). Setters and initialisers are recorded as data, and the
  model does not state how the code they become behaves at run time. In
  particular, when a struct has two setters of the same name, the generated
  code fails to compile. That is a property of the Rust compiler, not of the
  macro.
- Generics are carried through as opaque text (`src/lib.rs:10`,
  `src/lib.rs:79`). Types other than path types are opaque as well.
- How `src/lib.rs:79` renders the generics: `impl #generics #name #generics`
  prints only the generic parameter list, so a `where` clause is dropped,
  and the parameter declarations, bounds and defaults included, are repeated
  after the name (`struct W<T: Clone>` gives `impl<T: Clone> W<T: Clone>`).
  The model only records the name and generics; it does not produce this
  text or say whether it compiles.
- Panic messages. Each panic or failed assertion is a distinct `Error` case,
  without its text.
- `field.ident.as_ref().unwrap()` (`src/lib.rs:26`) cannot fail on named
  fields. A named field's identifier is simply a string in the model.
