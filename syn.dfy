/**
 * The parsed input of a derive macro, shaped after the `syn` crate's
 * `DeriveInput`. Only what `build_new` looks at is kept structured; the
 * rest (generic parameters, non-path types, attribute arguments) is carried
 * as opaque token text so that different inputs stay different values.
 */
module Syn {
  import opened Wrappers

  /** `syn::Type`: a path type such as `Option<String>` or `<T as Tr>::X`, or any other type. */
  datatype Type =
    | TypePath(qself: Option<QSelf>, path: Path)
    | OtherType(tokens: string)            // references, tuples, arrays, fn types, ...

  /** The `<T as Trait>` prefix of a qualified path. */
  datatype QSelf = QSelf(ty: Type, position: nat)

  datatype Path = Path(leadingColon: bool, segments: seq<PathSegment>)

  datatype PathSegment = PathSegment(ident: string, arguments: PathArguments)

  /** What follows a path segment: nothing, `<...>`, or `(...) -> ...`. */
  datatype PathArguments =
    | NoArguments
    | AngleBracketed(args: seq<GenericArgument>)
    | Parenthesized(inputs: seq<Type>, output: Option<Type>)

  datatype GenericArgument =
    | TypeArg(ty: Type)
    | LifetimeArg(name: string)
    | ConstArg(tokens: string)
    | OtherArg(tokens: string)              // associated types, constraints

  /**
   * `syn::Meta`. The path is kept as its rendered text, the way the macro
   * compares it: `#[new]` has path "new", `#[foo::new]` has path "foo :: new".
   */
  datatype Meta =
    | MetaPath(path: string)                            // #[new]
    | MetaList(path: string, tokens: string)            // #[new(x)]
    | MetaNameValue(path: string, value: string)        // #[doc = "..."]

  datatype Attribute = Attribute(meta: Meta)

  /** A named field; its identifier is mandatory because only named fields reach the planner. */
  datatype Field = Field(attrs: seq<Attribute>, ident: string, ty: Type)

  datatype Fields =
    | Named(named: seq<Field>)
    | Unnamed(unnamed: seq<Type>)
    | Unit

  datatype Data =
    | Struct(fields: Fields)
    | Enum(variants: seq<string>)
    | Union(union: seq<Field>)

  /** The generic parameters of the type, passed through to the output untouched. */
  datatype Generics = Generics(tokens: string)

  datatype DeriveInput = DeriveInput(ident: string, generics: Generics, data: Data)
}
