# gir2swift core: a Dafny model of `Sources/gir.swift`

This project models the core of gir2swift's `gir.swift` and proves
properties of the model. gir.swift reads a GObject-Introspection (GIR)
XML document. From it, it builds a model of the library's aliases,
constants, enumerations, records and classes, and it dumps a Swift
skeleton of the tree. The model covers:

- **The type registry and its duplicate filter** (`registry.dfy`).
  - The static dictionaries `GIR.KnownTypes` and `GIR.KnownRecords` become one `Registry` object with two maps.
  - Its `Filter` method is the `filter` closure of `GIR.init`, written as a loop over a category's entities in document order.
  - An entity is registered under its `node` name, its name with any "Class"/"Iface" suffix stripped.
  - The first registration wins. A later entity with a taken key is dropped and produces its warning line.
  - Records and classes are entered into both maps.
  - The function `Admit` is the filter's specification. The lemmas about it state:
    - the kept entities have distinct keys;
    - no old entry is overwritten;
    - the kept entities are a subsequence of the input;
    - every entity is either kept or warned about;
    - the registry invariant holds.
- **The model builder** (`builder.dfy`).
  - `class Gir` holds the fields `GIR.init(xmlDocument:)` sets.
  - Its constructor reads the namespace prefixes, then runs the five filters in the source's order: aliases, constants, enumerations, records, classes.
  - All five filters share the one registry. The lemmas therefore state that keys are distinct across categories, not just within one.
  - `Load` is the pair of fallible convenience initialisers.
- **The entity initialisers** (`entities.dfy`).
  - These are `Thing`, `Datatype`, `CType` (both initialisers), `Alias`, `Constant`, `Enumeration`, `Record`, `Class`, `Method` and `Argument`.
  - Each is a function of an XML element, with its fallbacks and its placeholder strings.
  - Also here: `GIR.documentation`/`docs`/`deprecatedDocumentation`, `GIR.args`, and `GIR.types`, a loop with an early return.
  - The class hierarchy becomes composition: each entity holds its base part.
- **String helpers** (`text.dfy`, `names.dfy`, `xml.dfy`).
  - `withoutNameSpace`, `priv` and `node`.
  - `sortedSubAttributesFor`: split on ',', then order longest first, ties in ascending order.
  - The Swift primitives these rely on: `hasPrefix`/`hasSuffix`, `Int(String)` and integer interpolation, `joined(separator:)`, `split(separator:)` and string `<`.
- **The emitter** (`emitter.dfy`).
  - `indent`, the `ConversionContext` class with `push`, and the walk of `dumpSwift` over the flattened tree.
  - The handler closures become data: each tag maps to the rule that renders its line and, when the closure pushes a context, that context's table.
  - The line `s` that the namespace closure computes, and that the alias closure returns, is kept in each context as `opening`.
  - `DumpSwift` is a loop over `ConversionContext` objects. It is proved equal to `Walk`, a function over a stack of frames. The walk's properties are proved about `Walk`.

Where the specification of the system and the code disagree, the model follows the code:

- The specification says a name is never empty. The code falls back to `Unknown<i>` only when the name attribute is absent. A present but empty `name` gives "" (`MakeThing`).
- The specification says the registry is keyed by entity name. The code keys it by the `node` name, so `FooClass` and `Foo` collide (`Register`).
- The specification gives the "nothing found" result of `GIR.types` as an unknown-type pair. The code uses `Void /* missing type i */` and `void /* missing C type i */` (`TypesOfMissing`).
- The specification says the walker emits an "unhandled" comment after popping. The code does so without consulting the handlers of the context it popped back to. So of two sibling aliases, the second is reported as unhandled (`SiblingAliases`).

## Model

| member | source | states |
|---|---|---|
| Text.RemoveSuffix | Sources/gir.swift:449 | `stringByRemoving(suffix:)`: a result exactly when the string ends in the suffix, and the result plus the suffix is the string |
| Text.ParseInt | Sources/gir.swift:293 | `Int(String)`: a parsed value lies in the 64-bit range and comes from non-empty text |
| Text.IntToString | Sources/gir.swift:176 | integer interpolation is non-empty and starts with '-' exactly for negative numbers |
| Text.ParseIntOfIntToString | Sources/gir.swift:293 | parsing an interpolated 64-bit integer gives the integer back |
| Text.Join | Sources/gir.swift:519 | `joined(separator:)`: no parts give "", one part gives that part |
| Text.JoinEmpty | Sources/gir.swift:519 | a join is empty exactly when there is no part or a single empty one |
| Text.Split | Sources/gir.swift:607 | `split(separator:)`: every piece is non-empty and free of the separator |
| Text.SplitJoin | Sources/gir.swift:607 | splitting a join of non-empty, separator-free parts gives the parts back |
| Text.LexLessTotal | Sources/gir.swift:606 | string `<` is total on distinct strings (with irreflexivity and transitivity beside it, a strict total order) |
| Names.LastIndexOf | Sources/gir.swift:18 | the offset of the last '.', with no '.' after it; none exactly when there is no '.' |
| Names.WithoutNameSpace | Sources/gir.swift:16-22 | the result is a '.'-free suffix of the string, directly after a '.' when there is one; a string without '.' is returned unchanged |
| Names.Priv | Sources/gir.swift:448-450 | `priv` is a value exactly for names ending in "Private", and is the name without it |
| Names.Node | Sources/gir.swift:452-468 | `node` is the name itself or five characters shorter |
| Names.NodeStripsSuffix | Sources/gir.swift:462-465 | `node` of `n + "Class"` and of `n + "Iface"` is `n` |
| Names.NodeStripsPrivateSuffix | Sources/gir.swift:455-465 | `node` of `n + "ClassPrivate"` and `n + "IfacePrivate"` is `n + "Private"` |
| Names.NodeKeepsPlainName | Sources/gir.swift:467 | a name ending in none of the suffixes is its own `node` |
| Xml.ChildrenNamed | Sources/gir.swift:517 | the tag filter keeps only children with that tag, all of them, and no more than it is given |
| Xml.ChildrenNamedUnit | Sources/gir.swift:517 | nothing is selected from no children, and one child is kept exactly when its tag matches |
| Xml.ChildrenNamedAppend | Sources/gir.swift:517 | the selection from a concatenation is the selections from its parts, in order |
| Xml.FirstNamedAppend | Sources/gir.swift:394 | the first match in a concatenation is the front part's first match if it has one, else the back part's |
| Xml.FirstNamed | Sources/gir.swift:394 | `findFirstWhere`: none iff no child has the tag, else the earliest such child |
| Xml.FirstNamedIsHeadOfFilter | Sources/gir.swift:256 | `filter { … }.first` and `findFirstWhere` agree |
| Xml.Insert | Sources/gir.swift:608 | inserting into a sorted sequence keeps it sorted and adds exactly the element |
| Xml.SortLongestFirst | Sources/gir.swift:608 | `sorted(isOrderedBefore:)` gives a permutation of the input ordered by the default `orderedBy` |
| Xml.BeforeAsymmetric | Sources/gir.swift:606 | the default `orderedBy` is asymmetric and irreflexive |
| Xml.BeforeTransitive | Sources/gir.swift:606 | the default `orderedBy` is transitive |
| Xml.BeforeTotal | Sources/gir.swift:606 | any two distinct strings are ordered one way or the other |
| Xml.SortedPermutationUnique | Sources/gir.swift:608 | two sorted permutations of the same pieces are equal, so the result does not depend on the sort algorithm |
| Xml.SortedSubAttributes | Sources/gir.swift:606-609 | no attribute gives []; otherwise a permutation of the ','-split pieces, longest first, ties ascending, each non-empty and comma-free |
| Xml.SortedSubAttributesUnique | Sources/gir.swift:606-609 | any sorted arrangement of the pieces is the result |
| Xml.SortedSubAttributesExample | Sources/gir.swift:67 | `identifier-prefixes="Gtk,G"` gives `["Gtk", "G"]` |
| Entities.Contents | Sources/gir.swift:518 | one content string per documentation child, in order |
| Entities.DeprecatedDocumentation | Sources/gir.swift:507-511 | nil exactly when the joined `doc-deprecated` text is empty, else that text |
| Entities.DocumentationEmpty | Sources/gir.swift:516-520 | documentation is empty iff there is no such child, or only one whose content is empty |
| Entities.DocumentationLines | Sources/gir.swift:516-520 | for non-empty single-line contents, the documentation splits back at '\n' into the contents |
| Entities.MakeThing | Sources/gir.swift:175-184 | the name is the attribute or `Unknown<i>`; the comment is the joined `doc` children; introspectable iff flagged; marked deprecated iff flagged; `deprecated` is the joined `doc-deprecated` text when that is non-empty, else "This method is deprecated." when flagged, else absent; the version is the attribute when present, else absent |
| Entities.UnknownNameCarriesIndex | Sources/gir.swift:176 | a synthesised name starts with "Unknown" and the rest parses back to the index |
| Entities.MakeDatatype | Sources/gir.swift:197-200 | the type is the `typeAttr` attribute or "" |
| Entities.PlaceholdersAreVoid | Sources/gir.swift:213-215 | every placeholder type the initialisers and `GIR.types` use counts as void |
| Entities.MakeCType | Sources/gir.swift:232-250 | the C type comes from `cTypeAttr` if given, else from an array's own `type`, else from the first `type` child, each with its placeholder; the contained types come from the `type` children |
| Entities.TypeChildCTypesInOrder | Sources/gir.swift:233 | one contained type per `type` child, in order, each built with `cTypeAttr: "type"` |
| Entities.MakeCTypeIsArray | Sources/gir.swift:275 | a `CType` read from a node is an array iff the node has a `type` child |
| Entities.FirstTyped | Sources/gir.swift:535-541 | the first child that is a `type` or has a `type` child, with none before it; none iff no child qualifies |
| Entities.TypesOfMissing | Sources/gir.swift:545 | without such a child, `GIR.types` gives the "missing" placeholder pair |
| Entities.TypesOfFirst | Sources/gir.swift:535-543 | otherwise the first such child decides the type name and the C type |
| Entities.Types | Sources/gir.swift:534-546 | the loop with early return computes exactly the scan's result |
| Entities.MakeCTypeFromChildren | Sources/gir.swift:253-266 | from the first `array` child (C type, name falling back to it, contained types) if any, else from `GIR.types` with no contained types |
| Entities.MakeAlias | Sources/gir.swift:279 | an alias is the inherited `CType` initialiser with its defaults |
| Entities.MakeConstant | Sources/gir.swift:292-299 | a constant's C type part is read with the given `cTypeAttr` |
| Entities.ConstantValue | Sources/gir.swift:293-297 | the value is the parse of `value` when that succeeds, otherwise the index; an interpolated integer is read back exactly |
| Entities.MakeEnumeration | Sources/gir.swift:317-321 | one constant per `member` child, the k-th built with index k and `cTypeAttr: "identifier"` |
| Entities.EnumerationMembers | Sources/gir.swift:318-319 | a member's C type is its `identifier`, its name its `name`, and without `value` its value is its position |
| Entities.MakeArgument | Sources/gir.swift:437-441 | instance iff the tag starts with "instance"; explicit varargs iff there is a `varargs` child; the type comes from the children |
| Entities.ArgumentVarargs | Sources/gir.swift:425-427 | an argument is varargs iff it has a `varargs` child or a name attribute starting with "..." |
| Entities.ArrayArgument | Sources/gir.swift:256-257 | an array argument's element types are the array's `type` children in order, and it is an array iff there is one |
| Entities.Parameters | Sources/gir.swift:526 | the selection keeps only children whose tag ends in "parameter", all of them, and no more than it is given |
| Entities.ParametersUnit | Sources/gir.swift:526 | nothing is selected from no children, and one child is kept exactly when its tag ends in "parameter" |
| Entities.ParametersAppend | Sources/gir.swift:526 | the selection from a concatenation is the selections from its parts, in order |
| Entities.ArgsFromSpec | Sources/gir.swift:527 | the enumerated map over the selection builds the k-th parameter with index start + k |
| Entities.ArgsAreParameters | Sources/gir.swift:525-529 | `args` has one argument per parameter child, in order, the k-th built with index k |
| Entities.DefaultReturnIsVoid | Sources/gir.swift:398 | the default return value is void by the type-name test of `Datatype.isVoid`, not varargs and not an instance |
| Entities.MakeMethod | Sources/gir.swift:389-407 | the C name is the `identifier` attribute, else empty; throws iff `throws` parses to a non-zero integer; the return value is the `return-value` child's argument (index -1) or the default; arguments from `parameters` if present, else from the method's own children |
| Entities.ThrowsExamples | Sources/gir.swift:391-392 | `throws="1"` throws; `throws="0"` and no attribute do not |
| Entities.AnyVarargsExists | Sources/gir.swift:410-412 | a method is varargs iff one of its arguments is |
| Entities.MethodsAt | Sources/gir.swift:352-356 | one method per child, each indexed by its position among its kind |
| Entities.MakeRecord | Sources/gir.swift:347-358 | type from `type-name`, C type from `type`, prefix and getter or ""; functions, methods and constructors from their children |
| Entities.MakeClass | Sources/gir.swift:365-368 | a record plus the `parent` attribute or "" |
| Registry.Register | Sources/gir.swift:75 | the key is the entry's `node` name, which is its name or five characters shorter |
| Registry.ClassSuffixCollides | Sources/gir.swift:74-81 | an entry named `n` and a later one named `n` + "Class" share the key `n`: the first is registered, the second warned about |
| Registry.AdmitCollision | Sources/gir.swift:74-81 | of two entities with one new key the first is kept and registered, the second warned about |
| Registry.Wrap | Sources/gir.swift:74 | one registry entity per constructed entity, in order |
| Registry.AdmitConsistent | Sources/gir.swift:115-125 | filtering keeps the registry invariant, and no known record is removed or replaced |
| Registry.AdmitPreserves | Sources/gir.swift:76-80 | filtering never overwrites or removes a registered type |
| Registry.AdmitKeysAll | Sources/gir.swift:73-82 | afterwards every input's key is registered, and nothing else is added |
| Registry.AdmitKeysKept | Sources/gir.swift:115-125 | the new type keys are those of the kept entities, the new record keys those of the kept records and classes, and each input is kept or warned about |
| Registry.AdmitKeptUnique | Sources/gir.swift:73-82 | kept entities have distinct keys that were not registered before, each registered to itself |
| Registry.AdmitFirstWins | Sources/gir.swift:74-81 | the first entity with a new key is kept and the key maps to it |
| Registry.AdmitKeepsOrder | Sources/gir.swift:74 | the kept entities are the input with entries left out, in document order |
| Registry.AdmitKeptIn | Sources/gir.swift:74 | every kept entity is an input |
| Registry.Registry.constructor | Sources/gir.swift:47-48 | both dictionaries start empty |
| Registry.Registry.Filter | Sources/gir.swift:116-125 | the loop leaves the maps, the kept items and the warnings that `Admit` specifies, and keeps the invariant |
| Builder.FirstDescendant | Sources/gir.swift:63 | `//namespace`: an element with the tag, the root itself if it matches |
| Builder.FirstDescendantInPreorder | Sources/gir.swift:63 | the first descendant with the tag is the first element with the tag in document order |
| Builder.FirstInForest | Sources/gir.swift:63 | none iff no tree of the sequence has an element with the tag |
| Builder.FirstInForestInPreorder | Sources/gir.swift:63 | over a sequence of trees, the first match is the first element with the tag in document order |
| Builder.GrandchildrenMatch | Sources/gir.swift:73 | `/*/*/gir:alias` and its siblings find every grandchild of the root with the tag, and only elements with the tag |
| Builder.GrandchildrenAreGrandchildren | Sources/gir.swift:73 | everything the query finds is a child of a child of the root |
| Builder.GrandchildrenUnit | Sources/gir.swift:73 | one child of the root contributes exactly its own children with the tag |
| Builder.GrandchildrenAppend | Sources/gir.swift:73 | the query over a concatenation of subtrees is the queries over its parts, in document order |
| Builder.NamespacePrefixesSorted | Sources/gir.swift:67-68 | the prefixes are non-empty, comma-free and ordered longest first; none without a namespace |
| Builder.AdmitStep | Sources/gir.swift:73-82 | one category's filter registers exactly its kept entities, all with keys new to the registry |
| Builder.ChainStep | Sources/gir.swift:73-141 | each further category extends the set of kept, distinct, registered entities |
| Builder.StagesKeysDistinct | Sources/gir.swift:73-141 | across all five categories the kept entities have distinct new keys, each registered to itself, no old entry changed |
| Builder.StagesCount | Sources/gir.swift:73-141 | every candidate of every category is kept or warned about |
| Builder.StagesAccounts | Sources/gir.swift:118-139 | `KnownRecords` gains exactly the kept records and classes |
| Builder.StagesConsistent | Sources/gir.swift:73-141 | the registry invariant holds after all five categories |
| Builder.BuildKeysDistinct | Sources/gir.swift:73-141 | for a document, no two kept entities of any categories share a key, so a class whose key an alias took is dropped |
| Builder.BuildAccounts | Sources/gir.swift:73-141 | for a document, each candidate element is kept or warned about, and `KnownRecords` gains exactly the kept records and classes |
| Builder.OneAliasInputs | Sources/gir.swift:73-74 | a repository with one namespace holding one alias yields that alias as the only candidate of any category |
| Builder.MyAliasEntity | Sources/gir.swift:175-184 | the alias `MyAlias` of `gint` has that name and type, a placeholder C type, no contained types, and its own name as key |
| Builder.OneAliasBuilt | Sources/gir.swift:73-141 | building that document on an empty registry keeps the one alias, registers it under `MyAlias` alone, no records, no warnings |
| Builder.AdmitOne | Sources/gir.swift:74-81 | a single non-record entity with a new key is kept and registered, with no warning |
| Builder.ReadPrefixes | Sources/gir.swift:63-69 | `prefix` and the two prefix lists come from the first namespace, keeping their empty defaults otherwise |
| Builder.FilterAll | Sources/gir.swift:73-141 | the five filters in order on one registry give the kept entities, registry and warnings of `Stages` |
| Builder.FilterDocument | Sources/gir.swift:73-141 | the five queries, each entity indexed by its query position, filtered in order |
| Builder.Gir.constructor | Sources/gir.swift:52-142 | the object holds the document, its prefixes, no bitfields and the kept entities of `Build`; the registry is left as `Build` says |
| Builder.Load | Sources/gir.swift:145-154 | nil exactly when the document did not parse, and then the registry is unchanged; otherwise the designated initialiser's object |
| Emitter.Indent | Sources/gir.swift:492-494 | `indent` is `4*level` spaces followed by `s`, and nothing else |
| Emitter.IndentExample | Sources/gir.swift:493 | level 1 gives four spaces |
| Emitter.HeadingLine | Sources/gir.swift:554 | four spaces per level of the node, then a comment naming the tag and the two levels |
| Emitter.UnhandledLine | Sources/gir.swift:594 | four spaces per level of the node, then an "unhandled" comment naming the tag and the two levels |
| Emitter.LevelsReadBack | Sources/gir.swift:554 | the levels written after " @ " read back as the node's level and the context's level |
| Emitter.FunctionLine | Sources/gir.swift:569-572 | `func <name>(` exactly when the name attribute is present and non-empty |
| Emitter.AliasDeclaration | Sources/gir.swift:559-564 | a `public typealias` exactly when the type node and the node that pushed the context both have non-empty names |
| Emitter.PopTo | Sources/gir.swift:590-593 | popping leaves a well-formed prefix of the stack whose top is no deeper than the node, and only frames deeper than the node are popped |
| Emitter.Step | Sources/gir.swift:589-594 | one node keeps the stack well formed |
| Emitter.StepHandled | Sources/gir.swift:589 | a handled node's line is its handler's, and the stack grows by the pushed frame (level + 1, the node as parent) or not at all |
| Emitter.StepUnhandled | Sources/gir.swift:590-594 | an unhandled node pops exactly the frames deeper than it, leaves an active frame no deeper than it, and reports that frame's level |
| Emitter.WalkSpec | Sources/gir.swift:588-594 | the walk keeps the stack well formed and yields one line per node |
| Emitter.WalkExtend | Sources/gir.swift:588-597 | one more node appends its step's line to the lines and to the output |
| Emitter.WalkPair | Sources/gir.swift:588-594 | walking two nodes is stepping the first, then the second |
| Emitter.WalkInOrder | Sources/gir.swift:588-594 | the lines are in stream order: the k-th node's line is its step from the stack the earlier nodes left |
| Emitter.OutputAppend | Sources/gir.swift:595-597 | the final `reduce` distributes over concatenation |
| Emitter.OutputOneLinePerEntry | Sources/gir.swift:595-597 | each line appears once, followed by exactly one "\n", between the lines before and after it |
| Emitter.OutputLength | Sources/gir.swift:595-597 | the output has at least one character per line, exactly one newline per empty line |
| Emitter.OpenNamespace | Sources/gir.swift:553-556 | a repository then a namespace give two heading lines and open the namespace context at level 2 |
| Emitter.AliasThenAlias | Sources/gir.swift:557-567 | in a namespace context an alias returns the namespace's line and pushes its type context; a second alias there pops back and is unhandled |
| Emitter.SiblingAliases | Sources/gir.swift:557-594 | two sibling aliases give the namespace's line and an unhandled line, and the walk is back in the namespace context |
| Emitter.AliasDeclarationWalk | Sources/gir.swift:553-594 | repository, namespace, alias and type give two headings, the namespace's line again and an empty line, ending in the alias's type context |
| Emitter.AliasDeclarationOutput | Sources/gir.swift:595-596 | that walk prints each of its four lines followed by a line break |
| Emitter.AliasWithType | Sources/gir.swift:557-568 | an alias opens a type context using the namespace's line, and a type inside it writes an empty line |
| Emitter.WalkTwoMore | Sources/gir.swift:588-594 | two more nodes after a prefix are stepped in turn from where the prefix ended |
| Emitter.OutputPair | Sources/gir.swift:595-596 | two lines are printed as each followed by a line break |
| Emitter.ConversionContext.Stack | Sources/gir.swift:472-484 | a valid context chain is a well-formed stack ending in this context's frame |
| Emitter.ConversionContext.constructor | Sources/gir.swift:479-484 | the fields are the arguments and `outputs` is empty |
| Emitter.ConversionContext.Push | Sources/gir.swift:487-489 | `push` gives a new context at the node's level + 1 whose parent is this one, its stack this one's plus the new frame |
| Emitter.PopContext | Sources/gir.swift:590-593 | the `while` loop reaches exactly the context `PopTo` specifies |
| Emitter.Dispatch | Sources/gir.swift:588-594 | the mapped closure returns the line and leaves the context that `Step` specifies |
| Emitter.Advance | Sources/gir.swift:588-597 | one node's line and newline are appended to the output and the context advances as the walk says |
| Emitter.DumpSwift | Sources/gir.swift:551-598 | the output is the walk's lines, in order, each followed by "\n" |

## Left out

- The XML library. Parsing, XPath and `xml.tree` belong to SwiftLibXML.
  - XPath queries are modelled by their two shapes: `//tag`, taken first, and `/*/*/tag`. XML namespaces (`namespaces`, the `gir:` prefix) are ignored.
  - The flattened tree of `dumpSwift` is the parameter of `DumpSwift`.
  - The outcome of `XMLDocument(fromFile:)` and `XMLDocument(buffer:)` is the parameter of `Load`.
- `bool(named:)` is not part of this model. Each element carries the set of attribute names it reads as true.
- `stringByRemoving(suffix:)` is not part of this model. The model assumes it returns the text before the suffix when the suffix matches, and nil otherwise.
- Writes to stderr are modelled as the `warnings` sequence of `Gir`, in the order they are written.
- The `Gir` object's fields are constants set in the constructor. The source declares them `var`, but nothing in the core writes them after `init`.
- `toSwift`, `.swift`, `errorType` and `GErrorType` are not part of this model. So the `GErrorType` update in `Datatype.init` and the `isVoid` override of `CType` are left out.
- The memberwise initialisers (`Thing.init(name:…)` and the like) only copy their arguments, so they are not modelled separately. `DefaultReturn` is the one value the core builds with them.
- `Datatype.init(node:atIndex:withType:nameAttr:)` is modelled inline in `MakeCTypeFromChildren`.
- Swift string interpolation of an optional is modelled as `nil` or `Optional("…")`, without escaping the characters inside.
- `Emitter.ConversionContext.outputs`: the type handler's write to it is modelled, but no property of it is stated, since nothing in the core reads it.
- The closures of `dumpSwift` become the tables `RootTable`, `RepositoryTable`, `NamespaceTable` and `TypeTable`. What a closure captures becomes data:
  - its line `s` is the context's `opening`;
  - the `context` variable is the active context passed to `Dispatch`.
- `Emitter.AliasDeclaration`: the source force-unwraps `context.parentNode`, which crashes on a root context. The tables never make a type handler active in the root context, so the model passes the optional parent node and produces the error line instead. It does not model the crash.
- The `assert(context.level == 0)` of the pop loop is unreachable in the model. A context with no parent is at level 0, which is never deeper than a node.
- Integer overflow: levels and indices are unbounded `nat`/`int`. `Int(String)` is modelled with the 64-bit range check.
- Swift `String` comparison is modelled as lexicographic order on characters, without Unicode normalisation. `characters.count` is modelled as the sequence length.
