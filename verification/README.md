# Axonyx compiler core, in Dafny

Axonyx is a small language that compiles page and backend sources. This project models the parts of its
compiler in which a wrong answer would go unnoticed, and proves that they are right, or exactly when they are.

The project has six parts. Functions give the meaning of an operation, methods follow the loops and the mutable
state of the source and are proved to meet those functions, and lemmas state what the functions promise.

**Lowering of pages** (`LoweringModel`, `Evaluation`, `EvaluationLaws`, `Lowering`, `PageMeaning`, `PageParts`,
`LoweringMeaning`, `LoweringCompleteness`, `LoweringSafety`, `LoweringMarks`, `LoweringPaths`, `LoweringOwners`,
`LoweringKeys`, `LoweringFragment`, `LoweringCoupling`, `LoweringEntry`, `LoweringElements`, `LoweringTemplate`,
`LoweringTracking`, `LoweringDeclarations`, `LoweringSilence`, `LoweringLimits`, `LoweringPromises`, `LoweringLoops`).
The lowerer evaluates a page into nodes under a scope that it mutates and clones. `PageMeaning` says what a page shows as
a relation that does not mention the lowerer: which branch, which items, which attributes, which component with which
parameters. The lowerer gives nodes that the page shows, and fails only where there are none. What the relation leaves
open is what the client can patch, which the other theorems are about. A keyed `each` also emits one
`template`, annotated with item paths, from which a client builds any other item. The main theorem is about two runs of
the same body: a template that is emitted, filled in for another item, is what the server would have lowered for that
item. It rests on four others: path tracking is exact over whole runs, an untracked expression that references no item
is constant, a component entered for two items starts in scopes that differ only in what comes from the item, and a
mark made in a cloned scope is lost only where a pipeline stage's element makes it.
Render paths are proved unique over whole runs, exactly when no pipeline's stages meet, so that component instances
never share a state signal.
A run returns, beside its nodes and scope, the events the theorems speak of: statement visits, component
instances, marks, keys, signals, overridden attributes, pipelines and their stages. A mark of an element counts as its
statement's, or as stray when the element is a pipeline stage. The methods work on a map that they change in place;
what they promise beside their functional specification is in `LoweringPromises`.

**Contracts and printed expressions** (`TypeContracts`, `LiteralUnions`, `ArgSplitter`, `ExprPrinter`, `CodegenReaders`,
`NativePayload`, `GeneratedCode`, `GeneratedForms`, `PrinterMeaning`). The search for recursive record types, with its
mutable path, is sound, complete and terminating, and acceptance is the existence of a layout of finite size for every
record. The depth-limited input check is characterised by chains of records.
Literals of a union are rendered as names, and no two of a union as the same.
Expressions are printed as Rust text and read again by small scanners; the scanners are inverse to the printer.
`GeneratedCode` is a reader of the printed language with precedence and a table of operators of its own; reading what is
printed gives the operations and operands of the expression.

**Token rewriting** (`TokenTrees`, `TextEdits`, `CallRewriting`, `CallEdits`, `MemberRewriting`, `MemberEdits`,
`MemberFixpoint`, `ContextMembers`, `RewritingLaws`). Three rewriters collect edits from a token tree, sort them and splice them into
the text. Each is a refinement of a rewriting of the tree followed by printing. A token tree knows the blanks
before each token, so its layout gives the spans. `RewritingLaws` says of the tokens themselves what is rewritten to what.

**Formatter** (`InlineMarkup`, `StructuralScanner`, `Formatter`, `FormatterLaws`, `FormatterIndent`, `FormatterBrackets`,
`FormatterLoop`). The line loop with its scanner object; every line starts with the blanks of the levels that the lines
above it leave open, formatting twice is formatting once, and only blanks change.

**Local symbols** (`CodeSegments`, `LocalSymbols`, `LocalPositions`). The one way to cut a source into code, comments and
quoted text; the code mask, which shows the code; the identifier tokens, the flat search for a
declaration, which agrees with a stack of scopes, and the lines and columns of what it finds.

**Handlers and queries** (`Narrowing`, `Invalidations`, `Queries`, `QueryAgreement`). Optional bindings in generated
handlers, over every run; the invalidation list, over every sequence of pushes; and the ways to write a query.

`Text` holds what all of them need: numbers in decimal, trimming, and splitting at a separator.

## What the theorems assume

- Template theorem: `Fragment` says which bodies it covers, and can be checked on the page.
  - No `Data` or unkeyed inner `each` binds a name that comes from the item, or `null`; properties of chains are
    non-empty and have no dots.
  - On a native tag prop names are distinct and none is `class`, `data-recipe` or begins with `data-ax-each-` or
    `data-ax-behavior`, which the templates use themselves.
  - A component is passed what comes from the item only as a member chain and only for a declared parameter; no
    parameter or state has the name of something that comes from the item, unless the parameter is passed just that;
    and defaults, initial states, the class and recipe of the use, and slot names do not mention such names.
  - A component that calls itself is checked as deep as the run goes.
- Besides, the run must be `Regular`: no value becomes a state signal (`TameRunsAreSilent` says when none does), no mark
  strays (`MarksStrayExactly` says when one does), and no passed attribute overrides one with a path.
- Instantiation sets text and attributes to the value at the path as a string, and follows the lowerer's own rule for
  boolean attributes.
- Path uniqueness: the key hashes of one list do not collide and have no dots. Hashes of different lists may collide.
- Printer: names, properties and call-path segments are words; string contents are arbitrary; floats print as
  digits, minus signs, points and `e`. Which characters are printable in a quoted string is a parameter. For reading the
  text back, floats are digits with a fraction or an exponent or both, perhaps with a sign, and calls have a name.
- Rewriters: tokens other than groups are non-empty and have no blank at either end.
- Narrowing: how JSON is decoded into types that are no options is a parameter.
- Queries: the readers of a clause's arguments are a parameter, the same for both front ends.

## What was found

- A template can be wrong when a keyed loop stands inside another one: an alias of the outer item keeps its entry in
  the scope, and the inner loop takes the alias's path as a path of its own item
  (`crates/axonyx-core/src/ax_lowering.rs:1045-1057`). `TemplatesAreSoundExactly` gives the exact condition.
- A mark that the element of a pipeline stage makes itself is dropped with the stage's copy of the scope
  (`crates/axonyx-core/src/ax_lowering.rs:973-981`), while marks below it leave a marker. `TemplateExactly` and
  `StageStraysExactly` give the exact condition, `PipelineLosesMark` the wrong template that follows.
- Declaring a name a second time in a loop's body keeps the path of the first declaration when the second has none,
  and declaring the loop's own name leaves the name tracked as the item (`crates/axonyx-core/src/ax_lowering.rs:227-238`).
  `PathsSurviveExactly` gives the exact condition.
- The stages of a pipeline share one path, so two local components among them are instances with the same path and
  share their state signals (`crates/axonyx-core/src/ax_lowering.rs:973-981`); and two stages that lower statements visit
  the same paths. `PathsAreUniqueExactly` gives the exact condition, `LocalStagesShareInstance` and
  `SignalsMeetExactly` what follows.
- What a component is passed is tracked if it is a chain, and otherwise neither tracked nor marked, although it may depend
  on the item (`crates/axonyx-core/src/ax_lowering.rs:1759-1772`); a parameter with the loop's own name is taken for the
  item; and an attribute passed through leaves the path of the one it replaces
  (`crates/axonyx-core/src/ax_lowering.rs:1774-1794`). `UntrackedPropMisleads`, `ShadowedBindingMisleads` and
  `OverriddenAttrMisleads` are the wrong templates.
- An index into a list literal is rendered without grouping, so the payload reader takes the whole text for the list
  (`crates/axonyx-core/src/ax_backend_codegen.rs:2372-2415`); `GeneratedPayloadReadsBackExactly` gives the exact condition.
- A negative number literal is printed with a bare sign, so a member or an index of one, `(-5)[0]` in a page or handler, is
  printed as the negative of the literal's member (`crates/axonyx-core/src/ax_backend_lowering.rs:1075-1090`);
  `PrintedMeansExactly` gives the exact condition, and `SignIsMisread` what is read.
- Rebinding an optional query result as untyped data leaves its old type in the map, so a later `require` writes a
  match on an option that is none any more (`crates/axonyx-core/src/ax_backend_codegen.rs:1668-1683`);
  `ChecksExactlyWithoutStale` gives the exact condition.
- The client's own patcher (`crates/axonyx-runtime/src/lib.rs:6871-7007`) is stricter than instantiation here: it refuses
  values that are no scalars and missing properties, and writes a true boolean attribute as the empty string.

## Model

| member | source | states |
|---|---|---|
| `LoweringTemplate.TemplateIsSound` | crates/axonyx-core/src/ax_lowering.rs:269-324 | Whenever a keyed `each` emits a `template`, filling that template in with any value whose body lowers gives exactly the nodes the server lowers for that value (attributes compared as maps), whatever render path either run was given; the body may declare names, branch, loop with or without keys, and use native tags, components with parameters, states and slots, fragments and pipelines |
| `LoweringTemplate.CleanItemIsTemplate` | crates/axonyx-core/src/ax_lowering.rs:299-306 | Non-interference of two runs: if one item passes both template checks, its nodes filled in for another item are the nodes lowered for the other item |
| `LoweringTemplate.TemplatesAreSoundExactly` | crates/axonyx-core/src/ax_lowering.rs:1035-1065 | Exact condition: in a scope, every template of the fragment is right for every item if and only if the scope is already flagged unsupported, or the binding is not named `null` and no alias entry of an enclosing loop is in the scope |
| `LoweringTemplate.StaleAliasMisreads` | crates/axonyx-core/src/ax_lowering.rs:1045-1052 | The failing family: an unflagged scope with an alias entry left by an enclosing loop always has a body whose template is wrong for some item |
| `LoweringTemplate.StatementsFollow` | crates/axonyx-core/src/ax_lowering.rs:208-457 | For any two scopes that differ only in the item, its aliases and the paths, clean runs of the same statements are instances of each other, for every kind of statement |
| `LoweringTemplate.LocalFollows` | crates/axonyx-core/src/ax_lowering.rs:1666-1735 | The same through a component: its body, lowered one call deeper in a scope of its own, and the attributes passed through to its first element |
| `LoweringTemplate.SlotFollows` | crates/axonyx-core/src/ax_lowering.rs:459-496 | The same through a slot: the children handed to the component are selected and lowered alike for both items, in the component's scope |
| `LoweringTemplate.StageFollows` | crates/axonyx-core/src/ax_lowering.rs:973-981 | The same through a pipeline stage from which no mark strays |
| `LoweringTemplate.KeyedIsRefused` | crates/axonyx-core/src/ax_lowering.rs:299-324 | A keyed loop that has items is never part of a template: it holds a `template` of its own, or nodes that cannot be one |
| `LoweringElements.ElementFollows` | crates/axonyx-core/src/ax_lowering.rs:832-910 | A native element whose bindings track its props, filled in for the other item, is the element the other run builds, including omitted and boolean attributes |
| `LoweringElements.AttachIsTracked` | crates/axonyx-core/src/ax_lowering.rs:832-910 | If attaching bindings marked nothing, the bindings are exactly those of the props with a path, and every other prop does not depend on the item |
| `LoweringEntry.EntryCoupled` | crates/axonyx-core/src/ax_lowering.rs:1666-1717 | Entering a component for two items, its body starts in scopes that differ only in what comes from the item: every parameter passed along a path has the value at that path, the others have one value, and the attributes passed through are the same |
| `LoweringEntry.BoundTracks` | crates/axonyx-core/src/ax_lowering.rs:1683-1714 | Once the parameters are bound, every alias in the component's scope has the value at its path, also when a parameter has the name of an alias and is passed that alias |
| `LoweringEntry.AttrsCommute` | crates/axonyx-core/src/ax_lowering.rs:1774-1794 | Passing attributes through to the first element and filling in commute, unless an attribute with a path is overridden |
| `LoweringFragment.SelectionIsFragment` | crates/axonyx-core/src/ax_lowering.rs:2017-2080 | Whatever a slot selects of the statements handed over is covered if all of them are |
| `LoweringTemplate.TemplateOfEach` | crates/axonyx-core/src/ax_lowering.rs:299-324 | The template a keyed loop emits is the body of one of its items that passed both checks, never a mixture |
| `Evaluation.PathIsExact` | crates/axonyx-core/src/ax_lowering.rs:1035-1065 | If an expression has render path p, evaluating it gives the value reached by walking p from the current item through any chain of aliases; if evaluation fails, it is by a missing member and the walk has reached null |
| `Evaluation.UnreferencedIsConstant` | crates/axonyx-core/src/ax_lowering.rs:1067-1094 | An expression that references no item evaluates alike, value or error, in any two scopes that agree away from the item and its aliases |
| `Evaluation.ChainWalks` | crates/axonyx-core/src/ax_lowering.rs:1242-1349 | Evaluating a member chain is walking its properties from the root variable; an unbound root, or `null`, counts as null, and a failing evaluation means that the walk has reached null |
| `Evaluation.PathExactlyOnChains` | crates/axonyx-core/src/ax_lowering.rs:1035-1094 | In a loop, the expressions with a path are exactly the member chains that reference the item: the two analyses agree on chains |
| `EvaluationLaws.FalseExactly` | crates/axonyx-core/src/ax_lowering.rs:1624-1639 | Which values are false: null, no text, the integer and the float 0, false, and empty lists and records |
| `EvaluationLaws.IntegersCompare` | crates/axonyx-core/src/ax_lowering.rs:1527-1559 | The six comparisons of integers have the truth of the order of integers |
| `EvaluationLaws.StringsCompare` | crates/axonyx-core/src/ax_lowering.rs:1527-1559 | The comparisons of strings have the truth of the order of a dictionary |
| `EvaluationLaws.ValuesCompare` | crates/axonyx-core/src/ax_lowering.rs:1383-1440 | Equality and membership hold of any values; membership asks for a list |
| `EvaluationLaws.SumsMean` | crates/axonyx-core/src/ax_lowering.rs:1441-1483 | Sums of integers that fit in 64 bits, and texts of scalars one after the other; a sum that does not fit is an error |
| `EvaluationLaws.LogicDecides` | crates/axonyx-core/src/ax_lowering.rs:1242-1349 | `and`, `or` and the fallback do not look at their right side, not even at its errors, when the left side decides |
| `EvaluationLaws.LogicMeans` | crates/axonyx-core/src/ax_lowering.rs:1242-1440 | The truth tables of `and` and `or`, and the right value in place of null |
| `EvaluationLaws.IndexMeans` | crates/axonyx-core/src/ax_lowering.rs:1351-1366 | An index out of range and a missing field give null; an index into anything else is an error |
| `EvaluationLaws.MembersMean` | crates/axonyx-core/src/ax_lowering.rs:1242-1349 | A missing field is null; a member of a value that is no record is an error, unless it is optional |
| `LoweringTracking.OwnPathsReadBack` | crates/axonyx-core/src/ax_lowering.rs:227-238 | At the level of a whole run: in the nodes of any item, marked or not, every text and attribute with a path shows the item's value at that path, through any chain of `Data` aliases and component parameters, so filling the nodes in for their own item changes nothing; and the scope left behind tracks all aliases |
| `LoweringTracking.RunsStayInStep` | crates/axonyx-core/src/ax_lowering.rs:227-238 | While nothing is marked, the runs of two items end in scopes that agree on every name that does not come from the item |
| `LoweringTracking.ItemStartsOnTrack` | crates/axonyx-core/src/ax_lowering.rs:269-275 | The scope in which an item starts tracks its binding, if no alias of an enclosing loop is in force |
| `LoweringDeclarations.PathsSurviveExactly` | crates/axonyx-core/src/ax_lowering.rs:227-238 | Exact condition: whatever values are declared for whatever item, paths are exact afterwards if and only if no name is the binding, `null`, or declared before |
| `LoweringDeclarations.RedeclaringMisreads` | crates/axonyx-core/src/ax_lowering.rs:227-238 | The failing family: any list of names with a repetition, or with `null`, has values after which a name reads something else than its path |
| `LoweringDeclarations.RebindingMisreads` | crates/axonyx-core/src/ax_lowering.rs:227-238 | The same for any list of names with the loop binding in it |
| `LoweringMarks.TemplateExactly` | crates/axonyx-core/src/ax_lowering.rs:1102-1157 | Exact condition: an item can be the template if and only if its scope was supported, no mark was made that did not stray from a pipeline stage, no element bears the marker's own tag, and its nodes hold no signal, state, behaviour or template; pipelines included |
| `LoweringMarks.NoMarkIsLost` | crates/axonyx-core/src/ax_lowering.rs:441-454 | If anything in an item body was marked, in whatever cloned scope, an item is refused as template, unless all its marks strayed: a pipeline stage's element marked only the stage's copy of the scope |
| `LoweringMarks.StageStraysExactly` | crates/axonyx-core/src/ax_lowering.rs:944-986 | Whatever is inside its element, a stage loses a mark of its own if and only if it is in a loop and its component marks itself: its inline text, properties, class or recipe depend on the item in a way that cannot be patched, which can be seen before it is lowered |
| `LoweringOwners.MarksStrayExactly` | crates/axonyx-core/src/ax_lowering.rs:944-986 | The same over whole runs: a mark strays somewhere if and only if some stage was lowered, in a loop, whose component marks itself |
| `LoweringMarks.OwnMarksExactly` | crates/axonyx-core/src/ax_lowering.rs:832-910 | When a component marks the scope it is lowered in: never outside a loop, and never for slots and local components; in a loop, for elements exactly by their own text, properties and style |
| `LoweringMarks.StatementsKeep` | crates/axonyx-core/src/ax_lowering.rs:217-454 | What every call keeps: the flag is never cleared, and a mark that does not stray leaves the flag in the scope or a marker among the nodes, and nothing else leaves them |
| `LoweringMarks.LocalKeeps` | crates/axonyx-core/src/ax_lowering.rs:1666-1735 | Through a local component, whose own scope is dropped, marks of its body leave a marker and the caller's scope is not flagged |
| `LoweringMarks.ChildrenKeep` | crates/axonyx-core/src/ax_lowering.rs:802-820 | Through children lowered in a cloned scope, marks leave a marker; those of inline text flag the scope |
| `LoweringMarks.MarkerIsUnsafe` | crates/axonyx-core/src/ax_lowering.rs:1134-1157 | A marker at any depth of a tree makes the template check refuse the tree |
| `LoweringLimits.PipelineLosesMark` | crates/axonyx-core/src/ax_lowering.rs:944-986 | The failing family: in every unflagged scope there is a body whose only mark strays from a pipeline stage and whose template is wrong |
| `LoweringLimits.UntrackedPropMisleads` | crates/axonyx-core/src/ax_lowering.rs:1759-1772 | The failing family for components: in every unflagged scope, passing a component a value that depends on the item and is no chain leaves nothing marked and makes the template wrong |
| `LoweringLimits.ShadowedBindingMisleads` | crates/axonyx-core/src/ax_lowering.rs:1035-1050 | The failing family for parameter names: a parameter with the loop's own name, passed a part of the item, is shown by the template as the whole item |
| `LoweringLimits.OverriddenAttrMisleads` | crates/axonyx-core/src/ax_lowering.rs:1774-1794 | The failing family for passed attributes: one that replaces an attribute with a path keeps the path, so the client writes the old attribute back |
| `LoweringSilence.TameRunsAreSilent` | crates/axonyx-core/src/ax_lowering.rs:1177-1198 | If no string of the page, of its components, of the scope or of the results of calls can be the beginning of a state marker, no value becomes a state signal in any run |
| `LoweringSilence.TameTemplateIsSound` | crates/axonyx-core/src/ax_lowering.rs:269-324 | In such a page, a template is right for every such item, without a condition on signals |
| `LoweringPaths.RenderPathsAreUnique` | crates/axonyx-core/src/ax_lowering.rs:219-225 | In any finite run without hash collisions among the keys of one list and without pipelines whose stages meet, no two statement visits and no two component instances have the same path, under any nesting and repeated slots |
| `LoweringPaths.PathsAreUniqueExactly` | crates/axonyx-core/src/ax_lowering.rs:219-225 | Exact condition: without hash collisions among the keys of one list, all visits and all instances of a run have different paths if and only if no pipeline it lowered has two stages that are local components or two that lower statements |
| `LoweringPaths.LocalStagesShareInstance` | crates/axonyx-core/src/ax_lowering.rs:973-981 | The failing family: each local component among the stages of a pipeline, whatever its definition, is an instance with the pipeline's own path |
| `LoweringPaths.SignalsMeetExactly` | crates/axonyx-core/src/ax_lowering.rs:1177-1198 | A value becomes the same state signal in two scopes if and only if their instance paths are equal, so instances that share a path share their signals |
| `LoweringOwners.SignalsBelongToOneInstance` | crates/axonyx-core/src/ax_lowering.rs:1177-1205 | Every state signal of a page's run belongs to an instance of the run, or to a statement outside of all instances; equal signals belong to the same; and when no stages meet, that instance occurs once |
| `LoweringPaths.InstancesShareNoSignal` | crates/axonyx-core/src/ax_lowering.rs:1177-1205 | Values materialised in the scopes of two component instances of one such run never become the same state signal |
| `LoweringPaths.SignalTellsInstance` | crates/axonyx-core/src/ax_lowering.rs:1177-1198 | Values that become the same signal were materialised in scopes of the same instance |
| `LoweringPaths.EntryPlaced` | crates/axonyx-core/src/ax_lowering.rs:1679-1683 | The body of a component runs in a scope whose instance path is the statement's render path, and this is the path recorded for the instance |
| `LoweringPaths.SignalsAreInjective` | crates/axonyx-core/src/ax_lowering.rs:1177-1198 | A signal name determines component, path, state and initial text, though the path may itself contain colons |
| `LoweringPaths.StatementsPlaced` | crates/axonyx-core/src/ax_lowering.rs:219-444 | Every place a call visits is below its own render path, and all are distinct |
| `LoweringPaths.SegmentsKeepApart` | crates/axonyx-core/src/ax_lowering.rs:1169-1175 | Paths below different segments of a path differ, though one segment may be a prefix of the other |
| `LoweringPaths.KeyedPlaced` | crates/axonyx-core/src/ax_lowering.rs:292-298 | The places of different items of a keyed list are apart as long as their hashes are |
| `LoweringPaths.LocalPlaced` | crates/axonyx-core/src/ax_lowering.rs:1666-1735 | A local component is one instance at its statement's path, and its body visits only places below it |
| `LoweringModel.SpellingInjective` | crates/axonyx-core/src/ax_lowering.rs:9-13 | The typed scope entries and their spellings as strings correspond one to one, as long as no user name starts with `__ax_` |
| `LoweringLoops.LowerStatementsIn` | crates/axonyx-core/src/ax_lowering.rs:208-457 | What statements show, said without the lowerer (`PageMeaning.Shows`): the nodes are the branch that the condition or the first case with the value picks, or the default; the items of a loop in order, or its empty body; elements with the attributes their properties ask for; component bodies with their parameters, states, slots and passed attributes; and an error if and only if the statements show nothing. Afterwards the variables are those declared and those before, only the entries of declared names and the flag differ, the path is restored, and under a loop item the flag or a marker is there if and only if something was marked |
| `LoweringLoops.LowerKeyedIn` | crates/axonyx-core/src/ax_lowering.rs:269-324 | The keyed loop: one element for each item, no two with the same key; a template has no marker in it and only comes from a supported scope; and where `TemplateIsSound` applies it is sound for every value. Seen keys, kind and first candidate agree with the recursive specification |
| `LoweringLoops.LowerPageIn` | crates/axonyx-core/src/ax_lowering.rs:154-187 | A page is lowered to nodes that it shows, once its parameters are bound, and fails if and only if it shows nothing; in a run without hash collisions, visits and instances have different paths if and only if no pipeline's stages meet |
| `LoweringCompleteness.PageLowersExactly` | crates/axonyx-core/src/ax_lowering.rs:154-187 | For all pages, components and scopes: what the lowerer gives is what the page shows, and it fails only on pages that show nothing |
| `LoweringCompleteness.StatementsLowerExactly` | crates/axonyx-core/src/ax_lowering.rs:208-457 | The same for statements in any scope, with slots and components as deep as the run goes |
| `LoweringMeaning.MatchShown` | crates/axonyx-core/src/ax_lowering.rs:400-420 | A `match` gives the nodes of the first case with the value, or of the default if no case has it |
| `LoweringMeaning.IfShown` | crates/axonyx-core/src/ax_lowering.rs:378-399 | An `if` gives the nodes of its body when the condition holds, and of the other body when it does not |
| `LoweringMeaning.EachShown` | crates/axonyx-core/src/ax_lowering.rs:239-377 | A loop gives one group of nodes for each item, in order, or its empty body; with a key, elements that bear their item's key and at most one template that repeats the body of one item |
| `LoweringMeaning.StatementsLeave` | crates/axonyx-core/src/ax_lowering.rs:217-239 | The variables after statements are those before with what was declared, in order |
| `PageParts.AttrsExactly` | crates/axonyx-core/src/ax_lowering.rs:2096-2147 | The attributes of an element are its own properties, its behaviour, and its class and recipe, in this order of precedence; boolean ones that are off are left out |
| `PageParts.PropsExactly` | crates/axonyx-core/src/ax_lowering.rs:988-1003 | Of properties with one name the last counts, and a state marker is written as the signal of the instance around it |
| `PageParts.PassesExactly` | crates/axonyx-core/src/ax_lowering.rs:1774-1794 | What a component passes on replaces the attributes of its first element, but class and style are added to what is there |
| `PageParts.SelectsExactly` | crates/axonyx-core/src/ax_lowering.rs:2017-2080 | A slot selects the statements handed over for it, in order, without their `slot` properties |
| `LoweringSafety.TemplateSafetyExactly` | crates/axonyx-core/src/ax_lowering.rs:1134-1157 | The template check passes if and only if no element at any depth is a template or a marker or bears an attribute of a signal, a state, a behaviour or a handler |
| `LoweringSafety.PatchedExactly` | crates/axonyx-core/src/ax_lowering.rs:832-910 | An element's property bindings are exactly those of its properties with a path and a name that may be patched, boolean ones by presence; addresses, styles, handlers and behaviour never are |
| `LoweringLoops.BindPageParamsIn` | crates/axonyx-core/src/ax_lowering.rs:1970-1990 | A page's parameters: one that the caller has bound is kept, the others get their default, evaluated after those before it, or null; no other entry changes |
| `LoweringLoops.LowerItemsIn` | crates/axonyx-core/src/ax_lowering.rs:362-375 | The unkeyed loop over copies of the map: indices and items stay together, and the caller's map is unchanged |
| `LoweringLoops.PropagateParamsIn` | crates/axonyx-core/src/ax_lowering.rs:1759-1772 | The path of each tracked prop is copied into the component's map, and no other entry is touched |
| `LoweringPromises.StatementsTouch` | crates/axonyx-core/src/ax_lowering.rs:208-457 | Lowering statements changes no entry but those of the names they declare and the flag, restores the path, and keeps marks exactly |
| `LoweringPromises.ComponentOnlyMarks` | crates/axonyx-core/src/ax_lowering.rs:459-535 | Whatever a component does, its caller's scope is the same afterwards but for the flag |
| `LoweringPromises.KeyedKeepsPromise` | crates/axonyx-core/src/ax_lowering.rs:269-324 | The same promise of the keyed loop, for its specification |
| `LoweringKeys.KeysDecideExactly` | crates/axonyx-core/src/ax_lowering.rs:269-291 | When every body lowers, a keyed loop lowers if and only if every key is a scalar, all are of one kind and no two are equal |
| `LoweringKeys.ItemKeysAreDistinct` | crates/axonyx-core/src/ax_lowering.rs:299-316 | A lowered loop has one element for each item, and their `data-ax-each-key-id` attributes are pairwise distinct |
| `LoweringKeys.KeyedCarriesKeys` | crates/axonyx-core/src/ax_lowering.rs:307-315 | Each element carries the kind and text of its own item's key, in the order of the items |
| `TypeContracts.ValidateTypeContracts` | crates/axonyx-core/src/ax_backend_codegen.rs:771-803 | Succeeds if and only if all record and union names are distinct, every literal of a union has a variant and no two of a union the same, every reference is declared and every record has a layout of finite size, in which optionals, secrets and results hold their parts in place and lists, sets, maps and signals do not; otherwise the error names a duplicate, a fault of a union, an undeclared reference at its field, or a record whose own search finds a cycle |
| `TypeContracts.ValidateNoRecursiveType` | crates/axonyx-core/src/ax_backend_codegen.rs:978-999 | The search with its pushed and popped path answers as the specification, restores the path on success, and terminates by the number of declared names not on the path |
| `TypeContracts.AcceptedExactlyWithoutCycle` | crates/axonyx-core/src/ax_backend_codegen.rs:978-1014 | The path search accepts every record if and only if there is no cycle of inline references |
| `TypeContracts.AcceptedExactlyWithRank` | crates/axonyx-core/src/ax_backend_codegen.rs:978-1014 | Acceptance is the same as the existence of a rank that falls along every inline reference, so accepted records have a finite layout |
| `TypeContracts.AcceptedExactlyWithLayout` | crates/axonyx-core/src/ax_backend_codegen.rs:978-1014 | The path search accepts every record if and only if every record has a layout of finite size, where the layout is defined from the types alone |
| `TypeContracts.MentionedExactly` | crates/axonyx-core/src/ax_backend_codegen.rs:950-976 | A type mentions a name if and only if the record of that name is a part of it, at any nesting |
| `TypeContracts.PlainInputsExactly` | crates/axonyx-core/src/ax_backend_codegen.rs:852-883 | Which types are plain input |
| `TypeContracts.RankFallsAlong` | crates/axonyx-core/src/ax_backend_codegen.rs:1001-1014 | Along any chain of inline references the rank falls from end to end |
| `TypeContracts.ValidateReferences` | crates/axonyx-core/src/ax_backend_codegen.rs:950-976 | Passes if and only if every name mentioned anywhere in a field type is declared; a failure names a record, its field and an undeclared name in it |
| `TypeContracts.CollectNames` | crates/axonyx-core/src/ax_backend_codegen.rs:771-783 | Passes if and only if the declared names are distinct, with their set as result |
| `TypeContracts.CollectUnions` | crates/axonyx-core/src/ax_backend_codegen.rs:784-791 | Passes if and only if the names of records and unions together are distinct and every union has distinct variants |
| `LiteralUnions.LiteralUnionVariants` | crates/axonyx-core/src/ax_backend_codegen.rs:904-927 | Passes if and only if every literal has a variant and no two have the same; then the literals are paired with their variants in order, else the fault names the literals |
| `LiteralUnions.LiteralUnionVariant` | crates/axonyx-core/src/ax_backend_codegen.rs:929-948 | Capitalising and joining the parts between separators is writing the characters one by one, large after each separator |
| `LiteralUnions.VariantIsName` | crates/axonyx-core/src/ax_backend_codegen.rs:929-948 | A literal has a variant if and only if it has a letter or digit and nothing else but separators, and the variant is an alphanumeric name that starts with a capital letter |
| `TypeContracts.RecordInputIsExact` | crates/axonyx-core/src/ax_backend_codegen.rs:836-883 | A record is readable request input if and only if every chain of nested records has at most 64 steps and ends in a record all of whose types are supported, declared unions or declared records |
| `TypeContracts.ValidateRequestRecordInputs` | crates/axonyx-core/src/ax_backend_codegen.rs:805-834 | Passes if and only if in every action and route each input field that is a record is required, has no default, and is readable; a failure names a handler, a field of it and why |
| `TypeContracts.ReachableCycleIsRejected` | crates/axonyx-core/src/ax_backend_codegen.rs:836-883 | A chain that comes back to a record it passed makes the record at its start rejected |
| `TypeContracts.SupportedRecordFits` | crates/axonyx-core/src/ax_backend_codegen.rs:836-850 | The depth-counting check is the structural condition with the remaining budget of 64 minus the depth |
| `ExprPrinter.SplitUndoesPrinting` | crates/axonyx-core/src/ax_backend_codegen.rs:2640-2670 | For every non-empty list of expressions, with arbitrary string contents, joining their rendered texts by ", " and splitting again gives exactly the texts |
| `ExprPrinter.RenderIsArg` | crates/axonyx-core/src/ax_backend_lowering.rs:1013-1120 | Every rendered expression is tight at both ends, balanced, and has no comma at its own level, through quotes, escapes and nesting |
| `PrinterMeaning.PrintedMeansExactly` | crates/axonyx-core/src/ax_backend_lowering.rs:1013-1147 | The printed text, read by a reader of the generated language with its own table of operators, gives the operations and operands of the expression in order: which infix operator, which side is which, the negation of a null test, the helper calls, members, indexes, calls, literals with their escapes, environment and user lookups; if and only if no member or index is taken of a negative number literal |
| `PrinterMeaning.SignIsMisread` | crates/axonyx-core/src/ax_backend_lowering.rs:1075-1090 | The failing family: a member of a negative literal is read as the negative of the member |
| `PrinterMeaning.SymbolMeans` | crates/axonyx-core/src/ax_backend_lowering.rs:1129-1147 | Every infix operator is printed as the symbol of its meaning |
| `PrinterMeaning.SpecialExactly` | crates/axonyx-core/src/ax_backend_lowering.rs:1149-1163 | Which members are environment lookups and which say what is known of the user |
| `ExprPrinter.AuthIsArg` | crates/axonyx-core/src/ax_backend_lowering.rs:1149-1163 | The same for the rendered authentication lookups |
| `ExprPrinter.EnvIsArg` | crates/axonyx-core/src/ax_backend_lowering.rs:1404-1417 | The same for the rendered environment lookups |
| `ArgSplitter.SplitCodegenArgs` | crates/axonyx-core/src/ax_backend_codegen.rs:2640-2670 | The one-pass loop with its depth, quote and escape variables cuts where the specification cuts |
| `ArgSplitter.SplitUndoesJoin` | crates/axonyx-core/src/ax_backend_codegen.rs:2640-2670 | Splitting undoes joining for all tight, balanced texts |
| `ArgSplitter.BinaryArgsOfJoin` | crates/axonyx-core/src/ax_backend_codegen.rs:2625-2638 | The two-argument splitter gives the first argument and the rest joined, and fails exactly when there is only one |
| `CodegenReaders.ThrottleUndoesPrinting` | crates/axonyx-core/src/ax_backend_codegen.rs:1901-1928 | Reading the rendered text of a `Login.throttle` call succeeds if and only if there are three arguments, the second a literal in 1..1000 and the third one in 1..86400, and then gives those numbers and the first argument's text |
| `CodegenReaders.ParsePrinted` | crates/axonyx-core/src/ax_backend_codegen.rs:1911-1927 | Of all rendered expressions, only number literals in range are read as numbers |
| `CodegenReaders.OnlyNumbersAreDigits` | crates/axonyx-core/src/ax_backend_lowering.rs:1013-1107 | No rendered expression other than a non-negative number literal is a text of digits |
| `NativePayload.PayloadReadsBack` | crates/axonyx-core/src/ax_backend_codegen.rs:2372-2415 | Reading the rendered text back renders the payload of the structural recursion: objects to `json!({..})`, lists to `json!([..])`, anything else as a leaf |
| `NativePayload.PayloadReadsBackExactly` | crates/axonyx-core/src/ax_backend_codegen.rs:2372-2415 | Exact condition, for all expressions with plain word keys and any renderer of leaves that borrows list texts: reading back gives the structural payload if and only if no index expression among the parts of the payload has a list literal as its leftmost operand, at any nesting |
| `NativePayload.GeneratedPayloadReadsBackExactly` | crates/axonyx-core/src/ax_backend_codegen.rs:2362-2415 | The same exact condition for the generator's own renderer of leaves, which looks request names up without a borrow and borrows all other text |
| `NativePayload.ListHeadIsMisread` | crates/axonyx-core/src/ax_backend_lowering.rs:1026-1037 | The failing family: any index into a list literal is read as the list, and the payload differs from the right one within both texts |
| `CallEdits.RewriteCalls` | crates/axonyx-core/src/ax_domain_codegen.rs:6-34 | Collecting edits, sorting, guarding and splicing gives the printed text of the structural rewriting of the token tree, or fails when that does; so no overlap or bounds guard ever fires |
| `CallRewriting.FailsExactlyOnWrongCall` | crates/axonyx-core/src/ax_domain_codegen.rs:36-109 | The rewriting fails if and only if some recognised call, at any nesting, has the wrong number of arguments |
| `RewritingLaws.CalledExactly` | crates/axonyx-core/src/ax_domain_codegen.rs:36-62 | Which tokens are recognised as a call: the name of a declared function, alone and behind no path, with an argument list |
| `RewritingLaws.PassedExactly` | crates/axonyx-core/src/ax_domain_codegen.rs:74-93 | How an argument is passed: a record by reference, a scalar as it is, any other value as a clone |
| `RewritingLaws.ArgumentsExactly` | crates/axonyx-core/src/ax_domain_codegen.rs:62-73 | The arguments are the pieces between the commas of the list's own level, trimmed, without a blank last one |
| `RewritingLaws.CallIsRewritten` | crates/axonyx-core/src/ax_domain_codegen.rs:62-109 | A call with as many arguments as parameters becomes the call of its rewritten arguments, each passed as its parameter takes it |
| `CallEdits.Collect` | crates/axonyx-core/src/ax_domain_codegen.rs:36-109 | The recursive collection pushes exactly the edits of the tree's pieces, in the order of the text |
| `CallEdits.PiecesAreRewriting` | crates/axonyx-core/src/ax_domain_codegen.rs:36-109 | The pieces put together are the old text without the edits and the rewritten tree's text with them |
| `CallEdits.ReadArguments` | crates/axonyx-core/src/ax_domain_codegen.rs:62-73 | The ranges between a call's commas hold the texts of its arguments; a blank last one is dropped |
| `CallRewriting.ArgumentsBroken` | crates/axonyx-core/src/ax_domain_codegen.rs:62-93 | Taking a call's arguments apart and trimming them neither hides nor adds a wrong call |
| `CallRewriting.TrimStreamText` | crates/axonyx-core/src/ax_domain_codegen.rs:77-81 | Trimming the text of an argument trims its ends and no token |
| `CallEdits.NothingToRewrite` | crates/axonyx-core/src/ax_domain_codegen.rs:6-34 | Without declared functions, nothing changes |
| `TextEdits.SplicedPieces` | crates/axonyx-core/src/ax_domain_codegen.rs:18-33 | Splicing the edits of some pieces into the text they make up replaces exactly those pieces; all other text stays |
| `TextEdits.SortFinds` | crates/axonyx-core/src/ax_native_codegen.rs:49-73 | Whatever order edits come in, if some order of them does not overlap, sorting finds it |
| `TextEdits.Splice` | crates/axonyx-core/src/ax_domain_codegen.rs:18-33 | The guarded splice succeeds if and only if the edits are in order and inside the text |
| `TextEdits.EditsOfFit` | crates/axonyx-core/src/ax_domain_codegen.rs:18-27 | The edits of pieces are always pairwise disjoint and inside the text |
| `MemberEdits.RewriteMembers` | crates/axonyx-core/src/ax_native_codegen.rs:49-73 | The same for member chains: the result is the printed structural rewriting, for every input, and no guard fires |
| `RewritingLaws.FieldBecomes` | crates/axonyx-core/src/ax_native_codegen.rs:75-113 | A field of a chain becomes a subscript with its name in quotes, and the chain goes on behind it; a method does not |
| `RewritingLaws.NameBecomes` | crates/axonyx-core/src/ax_native_codegen.rs:13-27 | A binding's name, alone, starts a chain; any other name is kept |
| `RewritingLaws.GroupBecomes` | crates/axonyx-core/src/ax_native_codegen.rs:75-113 | A group is rewritten inside, and is part of a chain as a subscript or as a chain in parentheses |
| `RewritingLaws.ChainExactly` | crates/axonyx-core/src/ax_native_codegen.rs:13-47 | What counts as a chain in parentheses: a binding or such a chain, followed only by fields and subscripts |
| `MemberEdits.SortedEdits` | crates/axonyx-core/src/ax_native_codegen.rs:49-113 | The edits as collected, chain first and inner groups later, sort into the edits of the tree in text order, which are disjoint |
| `MemberEdits.Collect` | crates/axonyx-core/src/ax_native_codegen.rs:75-113 | The collection pushes exactly the edits of every chain and of everything inside groups |
| `MemberEdits.FindChainEnd` | crates/axonyx-core/src/ax_native_codegen.rs:28-47 | A chain starts only at a root and ends where its indices and members stop |
| `MemberFixpoint.MembersAreGone` | crates/axonyx-core/src/ax_native_codegen.rs:49-113 | Rewriting members is idempotent: no chain of a binding is left in the result |
| `MemberFixpoint.StopIsKept` | crates/axonyx-core/src/ax_native_codegen.rs:28-47 | A chain that runs to the end of the tokens before the rewriting, and only such a one, runs to the end after it |
| `ContextMembers.RenderContextMembers` | crates/axonyx-core/src/ax_backend_codegen.rs:2859-2918 | The result is the printed tree in which every shortest path that names a request lookup is rendered; all text outside those paths is unchanged |
| `RewritingLaws.PathExactly` | crates/axonyx-core/src/ax_backend_codegen.rs:2861-2902 | From one of the four roots, the shortest path that stands for something is replaced by what it stands for; otherwise nothing is |
| `RewritingLaws.RequestRoots` | crates/axonyx-core/src/ax_backend_codegen.rs:2859-2918 | Which names request paths start from |
| `RewritingLaws.RequestCode` | crates/axonyx-core/src/ax_backend_codegen.rs:2859-2918 | What a path is replaced by: the code it is rendered as, owned |
| `ContextMembers.Collect` | crates/axonyx-core/src/ax_backend_codegen.rs:2861-2902 | The edits pushed are those of the paths in text order, although every token of a path is looked at again |
| `ContextMembers.PiecesPrint` | crates/axonyx-core/src/ax_backend_codegen.rs:2859-2918 | Pieces, old text and rewritten text agree |
| `FormatterLaws.FormattingTwiceIsOnce` | crates/axonyx-core/src/ax_formatter.rs:20-109 | If no line is expanded or wrapped, or the source is indentation sensitive, formatting twice equals formatting once: through blank lines, raw blocks, open quotes and comments, and the depth that stops at zero |
| `FormatterLaws.FormattingKeepsContent` | crates/axonyx-core/src/ax_formatter.rs:20-109 | Unless a tag is wrapped, formatting changes only blanks, also when lines are expanded |
| `FormatterLaws.FormatsAgain` | crates/axonyx-core/src/ax_formatter.rs:34-98 | A line that comes out is formatted to itself in the state it came out of and leads to the same next state |
| `FormatterLaws.LinesOfUnlines` | crates/axonyx-core/src/ax_formatter.rs:100-108 | Lines written out are the lines read back |
| `FormatterLoop.FormatAxSource` | crates/axonyx-core/src/ax_formatter.rs:20-109 | A source in which indentation counts is kept. Of any other one, every line is written below those above it with the blanks of as many levels as brackets and tags are open there, less those it closes first: exactly these blanks and the line if it is neither expanded nor wrapped, each of its parts behind them otherwise; raw blocks stay as they are, and of blank lines one is kept between others |
| `FormatterIndent.LayOut` | crates/axonyx-core/src/ax_formatter.rs:34-98 | The same law of the specification, with the level counted from the lines above: what they open, less what they close, stopping at zero after each line |
| `FormatterBrackets.InsideBrackets` | crates/axonyx-core/src/ax_formatter.rs:95-97 | Below lines of code, a line inside n open brackets that starts with k closing ones gets the blanks of n - k levels, where brackets are counted outside comments and quoted text in the one way to cut a line into these |
| `FormatterBrackets.CodeLineCounts` | crates/axonyx-core/src/ax_formatter.rs:431-539 | The scanner counts the brackets of a line outside comments and quoted text, and no others |
| `FormatterBrackets.OpenTagCounts` | crates/axonyx-core/src/ax_formatter.rs:489-539 | A line that opens a tag counts one opening |
| `FormatterBrackets.CloseTagCounts` | crates/axonyx-core/src/ax_formatter.rs:489-539 | A line that closes a tag counts one closing |
| `FormatterBrackets.SelfClosingCounts` | crates/axonyx-core/src/ax_formatter.rs:489-539 | A line with an element that closes itself counts nothing |
| `FormatterBrackets.ClosersExactly` | crates/axonyx-core/src/ax_formatter.rs:383-414 | The closers a line starts with are the closing brackets and tags before anything else but blanks |
| `Formatter.FindLeadingAlignment` | crates/axonyx-core/src/ax_formatter.rs:383-414 | The loop over leading closers counts what the specification counts |
| `StructuralScanner.Scanner.ScanLine` | crates/axonyx-core/src/ax_formatter.rs:431-539 | Scanning a line updates the quote, comment and tag fields and counts as specified |
| `StructuralScanner.InlineIsNeutral` | crates/axonyx-core/src/ax_formatter.rs:489-500 | Outside quotes, comments and open tags, an element at the start of a line counts nothing and opens nothing, whatever prose it contains |
| `InlineMarkup.ExpansionKeepsContent` | crates/axonyx-core/src/ax_formatter.rs:244-266 | Whenever lines are produced, each is an indent and a piece of the line, and the pieces in order are the original line |
| `InlineMarkup.ParsedIsWhole` | crates/axonyx-core/src/ax_formatter.rs:268-328 | In a parsed element without own text, at every depth, source = opening tag + children's sources + closing tag |
| `InlineMarkup.ParsedIsPrefix` | crates/axonyx-core/src/ax_formatter.rs:268-328 | A parsed element's source is the front of the text it was read from |
| `InlineMarkup.ParseMarkup` | crates/axonyx-core/src/ax_formatter.rs:268-328 | The reader with its moving cursor gives the specified element; the cursor advances strictly at every part |
| `InlineMarkup.FindExpressionEnd` | crates/axonyx-core/src/ax_formatter.rs:330-355 | The brace-counting loop finds the specified end |
| `InlineMarkup.FindTagEnd` | crates/axonyx-core/src/ax_formatter.rs:357-381 | The tag loop, with quotes and nested expressions, finds the specified end |
| `LocalSymbols.ResolveDrafts` | crates/axonyx-core/src/ax_local_symbols.rs:219-292 | Every identifier goes to the one draft it declares or refers to, in text order; the occurrences of a draft are exactly the tokens of its name that belong to it, none of which has a position in a comment or in quotes |
| `LocalPositions.LocateSymbols` | crates/axonyx-core/src/ax_local_symbols.rs:219-292 | Every symbol has its name, scope, declaration and occurrences by line and UTF-16 column; the occurrences are those of the draft, each where it stands, strictly in order |
| `LocalPositions.LocatedInOrder` | crates/axonyx-core/src/ax_local_symbols.rs:1032-1045 | What comes later in the text comes later by line and column |
| `LocalPositions.NothingToSort` | crates/axonyx-core/src/ax_local_symbols.rs:280-281 | So sorting the occurrences moves none and removing duplicates drops none |
| `LocalPositions.TableFindsLine` | crates/axonyx-core/src/ax_local_symbols.rs:1005-1030 | The search in the table of line starts finds the number and the start of the line of any position |
| `LocalPositions.UnitsExactly` | crates/axonyx-core/src/ax_local_symbols.rs:1032-1045 | Columns count the units of the text in UTF-16, from which the text can be read back |
| `LocalSymbols.FlatIsLexical` | crates/axonyx-core/src/ax_local_symbols.rs:245-260 | When the scopes around a token form a stack, the smallest-scope, latest-declaration search gives what looking through the stack from the innermost scope gives, also when both find nothing |
| `LocalSymbols.StackExists` | crates/axonyx-core/src/ax_local_symbols.rs:219-292 | When declaration scopes are nested or disjoint, every token has such a stack |
| `LocalSymbols.OccurrencesSpellTheName` | crates/axonyx-core/src/ax_local_symbols.rs:228-264 | Every occurrence spells its symbol's name, in the source and in the mask |
| `LocalSymbols.FindBest` | crates/axonyx-core/src/ax_local_symbols.rs:245-260 | The minimum by scope length and then by latest declaration, the first of equals |
| `LocalSymbols.CodeMask` | crates/axonyx-core/src/ax_local_symbols.rs:841-900 | However the source is cut into code, line comments, block comments and quoted text, the array overwritten in place shows the code as it is and blanks everything else but line breaks |
| `LocalSymbols.MaskShowsSource` | crates/axonyx-core/src/ax_local_symbols.rs:841-900 | The mask shows the source or a blank at every position, and never blanks a line break |
| `LocalSymbols.TokensAreCode` | crates/axonyx-core/src/ax_local_symbols.rs:823-900 | Every position of an identifier token is code in every cut of the source, and none is in a string or comment |
| `LocalSymbols.MaskHides` | crates/axonyx-core/src/ax_local_symbols.rs:841-900 | The mask is the source at the code of every cut and blank at its comments and quotes |
| `CodeSegments.CutExists` | crates/axonyx-core/src/ax_local_symbols.rs:841-900 | Every source can be cut into code, comments and quoted text |
| `CodeSegments.CutIsOnly` | crates/axonyx-core/src/ax_local_symbols.rs:841-900 | It can be cut in one way only |
| `LocalSymbols.OccurrencesExactly` | crates/axonyx-core/src/ax_local_symbols.rs:219-292 | The occurrences of a draft are exactly the tokens that belong to it |
| `LocalSymbols.IdentifierTokens` | crates/axonyx-core/src/ax_local_symbols.rs:823-839 | Tokens are maximal runs, disjoint and in order, and every identifier start is in one |
| `LocalSymbols.IdentifierCharacters` | crates/axonyx-core/src/ax_local_symbols.rs:823-839 | Which characters start an identifier and which go on with it |
| `Narrowing.NarrowingIsSafe` | crates/axonyx-core/src/ax_backend_codegen.rs:1819-1836 | On every run of the generated steps, over any results, the `unreachable!` arm is not taken and no statement is ill typed, and at the end of the run the tracked types match the bindings, as long as no stale name is required |
| `Narrowing.StepKeepsTracking` | crates/axonyx-core/src/ax_backend_codegen.rs:1668-1683 | What one step keeps: tracked types match the shapes of the bindings after its code has run |
| `Narrowing.BoundOnceIsNeverStale` | crates/axonyx-core/src/ax_backend_codegen.rs:1668-1683 | A handler that binds each name once has no stale name |
| `Narrowing.ChecksExactlyWithoutStale` | crates/axonyx-core/src/ax_backend_codegen.rs:1959-1974 | The generated code is well typed if and only if no stale name is required |
| `Narrowing.RebindingIsRefused` | crates/axonyx-core/src/ax_backend_codegen.rs:1668-1683 | The failing family: for every binding name and optional type, a handler that rebinds an optional query result as untyped data and then requires it gives code that is not well typed |
| `Narrowing.TruthyIsFull` | crates/axonyx-core/src/ax_backend_codegen.rs:168-170 | A truthy JSON value never comes from an empty optional |
| `Narrowing.FalseExactly` | crates/axonyx-core/src/ax_backend_codegen.rs:168-170 | Which JSON values are false |
| `Narrowing.RequiredIsNarrowed` | crates/axonyx-core/src/ax_backend_codegen.rs:1959-1974 | Requiring an optional binding binds its item with the item's type, or ends the handler |
| `Narrowing.BindingsHold` | crates/axonyx-core/src/ax_backend_codegen.rs:1668-1683 | A binding holds its input, decoded if its type is known; what cannot be decoded ends the handler |
| `Narrowing.RenderSteps` | crates/axonyx-core/src/ax_backend_codegen.rs:1668-1683 | A handler's code, step after step from an empty type map, is the code the safety theorems speak of |
| `Invalidations.ListHoldsEachKeyOnce` | crates/axonyx-core/src/ax_backend_codegen.rs:171-176 | After any sequence of pushes from empty: one entry per key in the order of first occurrence, each holding its key's last explicit target, or its first target if none was explicit |
| `Invalidations.FirstKeysAreKeys` | crates/axonyx-core/src/ax_backend_codegen.rs:171-176 | The keys are pairwise distinct and are exactly the normalised targets pushed |
| `Invalidations.KeyIsExact` | crates/axonyx-core/src/ax_backend_codegen.rs:171-176 | The key of a target: blanks, quotes and slashes taken from its ends, slashes inside become dots, and nothing left is the root |
| `Invalidations.AddAll` | crates/axonyx-core/src/ax_backend_codegen.rs:1694-1700 | A handler's pushes, one after the other |
| `QueryAgreement.FrontEndsAgree` | crates/axonyx-core/src/ax_backend_parser.rs:1229-1559 | For every sequence of clauses with balanced arguments, the fluent chain, with its terminal call anywhere among them, and the clause-per-line form, each line written as a call, with or without a dot, or with a keyword that means the same, build the same query or are both refused |
| `QueryAgreement.FirstCommutes` | crates/axonyx-core/src/ax_query_ast.rs:44-58 | Asking for the first row before or after any clause gives the same query: a later `limit` does not undo it |
| `QueryAgreement.FirstCommutesAll` | crates/axonyx-core/src/ax_query_ast.rs:44-58 | The same for any sequence of clauses |
| `QueryAgreement.ClauseMeans` | crates/axonyx-core/src/ax_backend_parser.rs:1561-1613 | A call changes the part of the query that its name says, with the operator its name says, and is refused exactly when its arguments do not read |
| `QueryAgreement.FirstMeans` | crates/axonyx-core/src/ax_query_ast.rs:44-58 | Asking for the first row limits a query to one row, unless it has a limit |
| `QueryAgreement.ChainSplits` | crates/axonyx-core/src/ax_backend_parser.rs:1799-1827 | Splitting a chain at its dots gives its calls, for arguments with dots inside quotes and brackets |
| `QueryAgreement.KeywordReads` | crates/axonyx-core/src/ax_backend_parser.rs:1259-1330 | A line with a keyword reads as the field and value, order or number it says |
| `QueryAgreement.KeywordIsNoCall` | crates/axonyx-core/src/ax_backend_parser.rs:1615-1632 | Such a line is never taken for a call, whatever brackets its value has |
| `Queries.SplitSegments` | crates/axonyx-core/src/ax_backend_parser.rs:1799-1827 | The splitting loop cuts as specified |
| `Queries.ParseFluent` | crates/axonyx-core/src/ax_backend_parser.rs:1467-1559 | The fluent reader, updating the query object, computes the specified query or error |
| `Queries.ParseClauses` | crates/axonyx-core/src/ax_backend_parser.rs:1229-1337 | The clause loop, updating the query object by calls and by keyword clauses, computes the specified query or error |

## Left out

Lowering:

- User functions in expressions: their bodies run in the caller's scope, and the analyses only look at arguments.
- Built-in components (`Card`, `Grid`, `Button` and so on), imported components and head tags: mostly attribute names.
- LoweringTemplate.TemplateIsSound: the conditions on components in `Fragment` are sufficient and not necessary: what a component is passed may mention the item and still be the same for all items.
- LoweringLoops.LowerStatementsIn: attributes are a map, so their order and duplicates are not modelled; a render binding is a value, not its JSON text; the attributes that describe an `each-state` binding are left out.
- A recursive component runs out of a fuel parameter, where the source recurses until the stack ends; every theorem holds for every amount of fuel.
- Scope entries have typed keys; `SpellingInjective` says what this assumes about names.
- Raw HTML nodes.
- Subtraction, multiplication, division, negation, everything on floats, float formatting and the key hash are parameters of the environment; sums and comparisons of integers and strings are not.
- LoweringLoops.LowerPageIn: what a page shows leaves open which text and attributes can be patched and which item is the template; the theorems on marks, paths and templates are about these.

Contracts and expressions:

- NativePayload.PayloadReadsBackExactly: JSON escapes in object keys are not read, as keys are words; how a leaf is rendered is a parameter, which borrows a text that starts a list. The generator's own does (`GeneratedPayloadReadsBackExactly`), with the request lookup and the domain code as parameters.
- PrinterMeaning.PrintedMeansExactly: the tree that is read is not evaluated; what the helpers that the text calls do is not part of this model.
- `rewrite_optional_json_members` and the rest of the code generator's text templates.

Token rewriting:

- The lexer is abstract: a source is given with its token tree, so text that does not parse, comments between tokens and doc comments are not modelled.
- CallEdits.RewriteCalls: spans count characters, not bytes, so the checks for character boundaries have no counterpart; the fresh parse of an argument's text is the argument's own tokens, trimmed.

Formatter:

- FormatterLoop.FormatAxSource: wrapping a long opening tag is a table of lines to their wrapped form. `FormattingTwiceIsOnce` excludes lines that are wrapped or expanded, since the new lines are scanned again and may be read differently.
- FormatterBrackets.InsideBrackets: lines above with markup are counted by the scanner, with `OpenTagCounts`, `CloseTagCounts` and `SelfClosingCounts` for lines that are one tag; for other markup the level is the scanner's count.
- The check that an expansion leaves the syntax tree the same is a set of accepted expansions; parsers are not modelled.
- Which characters are alphanumeric is a set; depths are unbounded above.

Local symbols:

- The collection of drafts, owners and expression ranges from declarations.
- LocalPositions.LocateSymbols: offsets count characters, where the source counts bytes; a symbol's kind is left out.

Handlers and queries:

- Narrowing.NarrowingIsSafe: handlers have bindings, requirements and steps that bind nothing; other steps' effects and the responses they return are not modelled.
- Queries.ParseClauses: the source line is given as collection and mode, and which lines belong to the query by their indentation.
- Which of several errors is reported, raw SQL and content collections.

Elsewhere: HTTP, cookies, sessions, passwords, storage and database calls; the language service's files and paths; name
checks in `ax_semantics_v2.rs`; `Signal` and `Resource`.
