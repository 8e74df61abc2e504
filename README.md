# ks-bin-fuzzer core, modelled in Dafny

ks-bin-fuzzer compiles a Kaitai Struct schema into a Python program that writes random but well-formed instances of the binary format the schema describes. This project models the core of that compiler and proves properties of the model. The modelled parts are:

- **Frontend passes.** Each pass rewrites the parsed schema, a nested dictionary, in place:
  - `DefaultValue` fills in the default integer ranges;
  - `ValidProcessor` folds a `valid: {min, max}` into the range keys;
  - `EnumProcessor` turns shorthand enum values into verbose ones;
  - `TypeProcessor` adds the schema's endianness to ambiguous type tags;
  - `RefProcessor` builds the dependency graph between `seq` attributes from the tokens of their reference keys.
- **Data structures.**
  - `DependencyGraph` holds nodes with mirrored edge sets and orders them with Kahn's algorithm. The order is proved topological, duplicate-free and complete, and the algorithm fails exactly when the graph has a cycle.
  - `DependencyTree` is a recursive tree with find and remove.
- **Code emission.** These modules turn each type tag into the text of a helper call, with the range, size, encoding and `contents` checks the source makes:
  - `ValueCodeGenerator` and `BaseTypeCodeGenerator`;
  - the class-based `CodeGenerator`, covering `generate_class`, its `struct` formats and `_ks_helper_fn_call`;
  - the older `Py3Generator` (src/backend/py3_generator.py), `Py3GeneratorLegacy` (py3_generator.py) and `GeneratorLegacy` (generator.py);
  - the name sanitisers `Sanitiser`;
  - the two indenters `Indenter` and `IndenterLegacy`.
- **Runtime helpers.** These are pasted into the generated programs:
  - `SeekableBuffers`, the seekable byte buffer;
  - the three helper versions `KsHelper`, `KsHelper90` and `KsHelperLegacy`: length-exact UTF-8, ASCII and ISO 8859 text, byte replacement and extraction, and integer decoding.
- **Constant tables.** `Const` holds the integer bounds and operators, and `Types` the type categories.

Shared vocabulary lives in a few supporting modules:
- `Results`: Python exceptions as the `Err` case of a `Result`, one `Error` constructor per exception class used.
- `Values`: the schema's YAML values.
- `Text`, `Tokens`, `Bytes` and `Codecs`: Python's `str(int)`/`int(str)` (with ASCII decimal digits), `str.split()`, slicing, `repr` of bytes, and UTF-8 encoding and decoding per section 3 of RFC 3629.
- `Emit`: the call texts the generators write and their parsing back.
- `Rng`: random draws, each modelled as a nondeterministic choice within the bounds the code passes.
- `Collections`: sequence helpers.

Code that changes state in the source is imperative here. The graph nodes, the indenters, the seekable buffer and the processors are classes whose methods update their fields. Loops such as Kahn's algorithm, the contents encoding, `generate_class` and `generate_fn` are methods with loop invariants. Each of those methods is proved against a specification function, and the properties are proved about that function. Pure code, such as tables, sanitisers, formatting, `_int_min_max` and the tree searches, is functions and lemmas.

Where the code and its documentation or tests disagree, the model follows the code. Examples:
- tests/backend/include/py3/test_ks_helper.py expects `rand_bytes(0)` to return empty bytes, while src/backend/include/py3/ks_helper.py raises ValueError. `KsHelper.RandBytes` raises.
- `find_child` is documented to search all descendants, but as written it can lose a deep hit. See "## Findings".

## Model

| member | source | states |
|---|---|---|
| Const.UnsignedBoundsArePowers | src/utils/const.py:4-7 | for each width k of 1, 2, 4 and 8 bytes the unsigned bounds are 0 and 2^(8k) - 1 |
| Const.SignedBoundsArePowers | src/utils/const.py:8-11 | for each width k the signed bounds are -2^(8k-1) and 2^(8k-1) - 1 |
| Const.BoundsOrdered | src/utils/const.py:4-11 | every width has a nonempty range, and the signed range has exactly as many values as the unsigned one |
| Const.Operators | src/utils/const.py:16-22 | an operator is in the union exactly when it is in one of the five operator tables |
| Const.OperatorsCount | src/utils/const.py:16-22 | `+` is in both the arithmetic and the string table, yet the union has 19 members, so it counts once |
| Types.BaseTypesLayout | src/utils/types.py:5-13 | the base list has 29 entries: the 20 integer tags, then the 6 float tags, then `str` and `strz`, then `None`, each block in its own list's order |
| Types.BaseTypeMembership | src/utils/types.py:10-13 | a tag is a base type exactly when it is `None` or named in the integer, float or string list |
| Types.NoneIsBase | src/utils/types.py:9-13 | raw bytes (`None`) are a base type and the last entry, so a field without a type is never a custom type |
| Types.CategoriesDisjoint | src/utils/types.py:5-8 | no tag is in two of the integer, float and string lists |
| Values.IsBaseTypeMeansListed | src/frontend/ref_processor.py:28 | the custom-type test is exactly non-membership in the base list |
| Tokens.SplitTokens | src/frontend/ref_processor.py:40 | every token `str.split()` yields is nonempty and holds no whitespace |
| Tokens.SplitKeepsPrinting | src/frontend/ref_processor.py:40 | splitting loses only whitespace: the tokens joined back are the non-whitespace characters in order |
| Tokens.OneWord | src/frontend/ref_processor.py:40 | a nonempty text without whitespace is a single token |
| Tokens.NoShorterToken | src/frontend/ref_processor.py:38-40 | an expression without spaces round its operators, such as `len+1`, is one token, so no shorter field name it starts with is found in it |
| Text.NatTextValue | py3_generator.py:103-107 | the decimal text of a natural number reads back as that number |
| Text.ParseIntText | py3_generator.py:103-107 | `int(str(i)) == i` for every integer: `int` reads back any text that `str` writes |
| Text.ParseSigned | py3_generator.py:103-107 | an optional minus sign followed by digits parses to the signed value of those digits |
| Text.IntTextInjective | py3_generator.py:111-115 | two integers with the same decimal text are equal, so the size written into a generated call determines the size |
| Text.IntText | py3_generator.py:111-115 | the text of an integer is nonempty and starts with `-` exactly when the integer is negative |
| Text.ParseInt | py3_generator.py:103-107 | the only error `int` of a text raises is ValueError for a malformed literal |
| Text.LowerText | src/backend/py3/utils/sanitiser.py:33 | `str.lower()` keeps the length and lower-cases each letter in place, leaving every other character |
| Text.UpperText | src/backend/py3/value_code_generator.py:172 | `str.upper()` keeps the length and upper-cases each letter in place, leaving every other character |
| Text.TitleFrom | src/backend/py3/utils/sanitiser.py:14 | `str.title()` keeps the length, keeps every non-letter, and maps letters to letters |
| Text.SplitLinesTerminated | src/backend/utils/indenter.py:44-45 | splitting text whose lines end in LF or in CR LF gives back exactly those lines, for both line endings |
| Text.Repeat | src/backend/utils/indenter.py:38 | `s * n` has `n` copies of `s` (none for `n <= 0`), and a one-character `s` gives a run of that character |
| Sanitiser.Keep | src/backend/py3/utils/sanitiser.py:15-17 | the filtered text is no longer than the input and holds only input characters that are not in the deleted list |
| Sanitiser.KeepMore | src/backend/py3/utils/sanitiser.py:16-17 | deleting one more character after a filter is filtering by the longer list, so the loop computes one filter |
| Sanitiser.KeepNothing | src/backend/py3/utils/sanitiser.py:16-17 | filtering by an empty list changes nothing, so the loop starts from the unchanged text |
| Sanitiser.Replace | src/backend/py3/utils/sanitiser.py:17 | `s.replace(c, "")` is the filter by `[c]` and leaves no `c` |
| Sanitiser.RemoveAll | src/backend/py3/utils/sanitiser.py:16-17 | the replace loop deletes every listed character and keeps the rest in order |
| Sanitiser.ClassName | src/backend/py3/utils/sanitiser.py:4-19 | the class name ends with the one added `_` and has no punctuation, whitespace or other `_` before it |
| Sanitiser.FnName | src/backend/py3/utils/sanitiser.py:22-39 | the function name ends with `_`, has no upper-case letter and no deleted character before the final `_` |
| Sanitiser.SanitiseClassName | src/backend/py3/utils/sanitiser.py:4-19 | the title-case-then-delete loop yields the class name specified above |
| Sanitiser.SanitiseFnName | src/backend/py3/utils/sanitiser.py:22-39 | the lower-case-then-delete loop yields the function name specified above |
| Bytes.FromBytes | src/backend/include/py3/ks_helper.py:121-127 | `int.from_bytes` fails exactly for a byte order other than "big" or "little"; an unsigned value lies in [0, 256^n), a signed one in [-256^n/2, 256^n/2) |
| Bytes.FromBytesExamples | src/backend/include/py3/ks_helper.py:121-127 | `ff ff` read little-endian unsigned is 65535 and big-endian signed is -1 |
| Bytes.BigValueBytes | src/backend/include/py3/ks_helper.py:121-123 | writing a value in big-endian bytes and reading them back gives the value |
| Bytes.BigBytesValue | src/backend/include/py3/ks_helper.py:121-123 | reading a byte string and writing the value back in as many bytes gives the byte string |
| Bytes.ToByte | src/backend/py3/value_code_generator.py:26 | `v.to_bytes(1)` succeeds exactly for 0..255 and is then the byte `v` |
| Bytes.PySet | src/backend/include/py3/ks_helper.py:146-161 | a bytearray item assignment succeeds exactly for an index in [-len, len) and keeps the length; otherwise IndexError |
| Bytes.Repr | src/backend/py3_generator.py:207 | `str(bytes)` is a `b`-prefixed literal between matching quotes |
| Bytes.ReadEscapeByte | src/backend/py3_generator.py:207 | each byte's escape inside a literal reads back as that byte, whatever follows it |
| Bytes.ParseReprRepr | src/backend/py3_generator.py:207 | the bytes literal written into generated code denotes exactly the bytes it was written from |
| Codecs.ByteSize | src/backend/include/py3/ks_helper.py:24-36 | the UTF-8 length of a code point is 1, 2, 3 or 4 by the thresholds 0x7F, 0x7FF and 0xFFFF of section 3 of RFC 3629, and ValueError exactly outside [0, 0x10FFFF] |
| Codecs.ByteSizeOfChar | src/backend/include/py3/ks_helper.py:24-36 | the helpers' byte count of a character is the length of its UTF-8 encoding |
| Codecs.DecodeEncode | src/backend/include/py3/ks_helper.py:82 | every encoded text is well-formed UTF-8 and decodes back to itself |
| Codecs.EncodeDecode | src/backend/py3/include/_90_ks_helper.py:98 | bytes that decode are the encoding of what they decode to |
| Codecs.EncodeAppend | src/backend/py3_generator.py:196-198 | encoding a concatenation is concatenating the encodings, so the per-element encodings add up to the encoding of the whole |
| Codecs.AsciiEncode | src/backend/include/py3/ks_helper.py:91 | ASCII encoding succeeds exactly when every character is below 128, and then gives one byte per character with its code |
| Codecs.AsciiDecode | src/backend/py3/include/_90_ks_helper.py:124 | ASCII decoding succeeds exactly when every byte is below 128, and then gives one character per byte |
| Codecs.AsciiDecodeAppend | src/backend/py3/include/_90_ks_helper.py:101-124 | decoding ASCII bytes followed by more bytes fails exactly when the more bytes fail, and otherwise joins the texts |
| Codecs.AsciiIsUtf8 | src/backend/py3/include/_90_ks_helper.py:98 | ASCII text is its own UTF-8 encoding |
| Emit.Show | src/backend/py3_generator.py:22-23 | the f-string of an integer reads back as that integer, a string is written as itself, and no other scalar's text holds a comma |
| Emit.Below | src/backend/py3/base_type_code_generator.py:18 | `v < bound` is defined exactly for numeric values and raises TypeError otherwise |
| Emit.Above | src/backend/py3/base_type_code_generator.py:18 | `v > bound` is defined exactly for numeric values and raises TypeError otherwise |
| Emit.SplitArgsJoin | src/backend/py3/base_type_code_generator.py:21 | splitting a `, `-joined argument list gives back the arguments when none holds a comma |
| Emit.CallArgsCall | src/backend/py3_generator.py:130-135 | the arguments of an emitted helper call read back from its text |
| Emit.TypeToFn | src/backend/generator.py:126-158 | the dispatch table answers exactly for the 29 base types: `None` to raw bytes, each integer and float tag to its own generator, `str` and `strz` to theirs |
| Emit.NameWidth | src/backend/py3_generator.py:26-127 | every integer and float tag spells a byte width in its name |
| Emit.RangeCall | src/backend/py3/base_type_code_generator.py:17-22 | a range-checking generator succeeds exactly when `start` is not below the minimum and `end` not above the maximum; ValueError names the tag, a bound with no order raises TypeError, `end` is not examined once `start` fails, and success writes `rand_int(start, end)` |
| Emit.RangeCallArgs | src/backend/py3/base_type_code_generator.py:17-22 | an accepted integer range lies within the bounds and its two bounds read back from the emitted call |
| Emit.RandIntCall | src/backend/py3/base_type_code_generator.py:17-116 | each integer tag's generator range-checks against that tag's bounds from const.py |
| Emit.RandIntCallVariants | src/backend/py3/base_type_code_generator.py:31-35 | the `le` and `be` variants accept and emit exactly what the plain tag does |
| Emit.Index | src/backend/py3_generator.py:175 | `d[k]` succeeds exactly for a present key, with its value, and raises KeyError naming the key otherwise |
| Emit.GetOrNone | src/backend/py3_generator.py:182 | `d.get(k)` is the value of a present key and `None` for a missing one |
| Emit.LookupGen | src/backend/generator.py:158 | `TYPE_TO_FN_MAP[key]` succeeds exactly for a base-type key; an unhashable key raises TypeError and any other key KeyError |
| Emit.KindOf | src/backend/py3/value_code_generator.py:223-255 | the `get` lookup finds a generator exactly where indexing would, and the same one |
| Emit.IntTagCase | src/backend/py3_generator.py:26-103 | each integer tag belongs to exactly the signedness and width case its name spells |
| Emit.IntDrawCoversRange | src/backend/py3_generator.py:26-103 | an integer tag draws k bytes, and 2^(8k) is exactly the number of values in the tag's range in const.py |
| Emit.WidthCallArgs | src/backend/py3_generator.py:26-127 | an integer or float generator's call carries one argument, which reads back as the tag's byte count |
| Emit.FloatTagBytes | src/backend/py3_generator.py:106-127 | the `f4` tags draw 4 bytes and the `f8` tags 8 |
| DefaultValue.SameTypeLists | src/frontend/default_value.py:4-7 | the pass's own integer, float and string lists equal those of src/utils/types.py |
| DefaultValue.IntMinMax | src/frontend/default_value.py:17-41 | the range is defined exactly for the 20 integer tags; any other tag raises ValueError("Not a valid integer type") |
| DefaultValue.IntMinMaxBounds | src/frontend/default_value.py:23-39 | every tag of a signedness-and-width case, plain, `le` or `be`, gets the const.py range of that case |
| DefaultValue.IntTypesByCase | src/frontend/default_value.py:4-5 | the unsigned tags of the four width cases, in order, are the first ten integer tags, and the signed cases the rest |
| DefaultValue.IntMinMaxPowers | src/frontend/default_value.py:23-39 | an unsigned k-byte tag ranges over [0, 2^(8k) - 1] and a signed one over [-2^(8k-1), 2^(8k-1) - 1], whatever its suffix |
| DefaultValue.SetDefault | src/frontend/default_value.py:68-69 | `setdefault` adds the key with the value only when it is missing and changes no other key |
| DefaultValue.DefaultEntry | src/frontend/default_value.py:63-75 | a `str`/`strz` attribute raises NotImplementedError; an integer or float attribute gains `-fz-range-min`/`-max` defaults (its tag's range, or the infinities) without overwriting keys it has; any other attribute is unchanged |
| DefaultValue.DefaultEntryIdempotent | src/frontend/default_value.py:63-75 | defaulting an attribute twice is defaulting it once |
| DefaultValue.DefaultSeq | src/frontend/default_value.py:58-61 | a successful pass keeps the number of attributes; the only error is NotImplementedError |
| DefaultValue.DefaultSeqPointwise | src/frontend/default_value.py:58-75 | the pass over `seq` succeeds exactly when no attribute is a string, and then defaults each attribute independently |
| DefaultValue.PopulateOutcome | src/frontend/default_value.py:47-56 | any top-level key other than `meta` and `seq` makes the pass fail with KeyError; on success `seq` has been defaulted entry by entry and nothing else changed |
| DefaultValue.DefaultValuePopulator.HandleSeq | src/frontend/default_value.py:58-61 | the in-place loop succeeds exactly when the pure pass does and then leaves its result; on error only the attributes changed, and their number is kept |
| DefaultValue.DefaultValuePopulator.PopulateDefault | src/frontend/default_value.py:77-80 | iterating the keys in dict order gives exactly the pure pass's outcome and new source |
| DependencyGraph.DependencyGraphNode.constructor | src/datastructure/dependency_graph.py:69-72 | a new node carries the data and has no edges |
| DependencyGraph.DependencyGraphNode.DependsOn | src/datastructure/dependency_graph.py:74-76 | the edge is recorded on both sides: the target joins this node's dependencies and this node joins the target's dependees; nothing else changes |
| DependencyGraph.DependencyGraphNode.RemoveDependent | src/datastructure/dependency_graph.py:78-84 | with no such edge nothing changes and the result is None; otherwise both sides lose the edge and the node is returned, and when only this side recorded it the second removal raises KeyError after the first |
| DependencyGraph.DependencyGraphNode.NumDependents | src/datastructure/dependency_graph.py:86-87 | the count is 0 exactly when the node depends on nothing |
| DependencyGraph.DependencyGraphNode.HasDependents | src/datastructure/dependency_graph.py:89-90 | `has_dependents()` holds exactly when `num_dependents() > 0` |
| DependencyGraph.DependencyGraph.constructor | src/datastructure/dependency_graph.py:10-12 | a new graph has no nodes and a count of 0 |
| DependencyGraph.DependencyGraph.AddNode | src/datastructure/dependency_graph.py:29-31 | the node joins the set and the count grows by one on every call |
| DependencyGraph.DependencyGraph.AddNodes | src/datastructure/dependency_graph.py:33-35 | every listed node joins the set and the count grows by the length of the list |
| DependencyGraph.AddSameNodeTwice | src/datastructure/dependency_graph.py:29-31 | adding one node twice leaves one node in the set and a count of 2 |
| DependencyGraph.DependencyGraph.Copy | src/datastructure/dependency_graph.py:14-27 | the copy has fresh nodes with the same data and the same depends-on relation on data, both sides of each edge recorded, and a count equal to its node set; it raises KeyError exactly when a dependency's data has no node in the graph |
| DependencyGraph.DependencyGraph.CreateNodes | src/datastructure/dependency_graph.py:15-21 | the first loop makes one fresh unlinked node per data value and indexes them by data |
| DependencyGraph.DependencyGraph.LinkNodes | src/datastructure/dependency_graph.py:22-26 | the second loop links every copied node exactly as the original is linked, and fails exactly when a dependency's data has no copy |
| DependencyGraph.DependencyGraph.LinkDependencies | src/datastructure/dependency_graph.py:24-26 | the inner loop links the copy of one node to the copy of each of its dependencies, or names a dependency without a copy |
| DependencyGraph.DependencyGraph.LineariseGraph | src/datastructure/dependency_graph.py:37-58 | the result lists distinct copied nodes, as many as the count, each after everything it depends on; with distinct data and a faithful count it succeeds exactly when the relation is acyclic, and otherwise the assertion fails; the graph itself is not modified |
| DependencyGraph.DependencyGraph.ExtractOrder | src/datastructure/dependency_graph.py:42-54 | the extraction on the copy yields a topological order of the data, which covers every node exactly when there is no cycle |
| DependencyGraph.DependencyGraph.SeedQueue | src/datastructure/dependency_graph.py:43-46 | the initial queue holds each node with no dependency once |
| DependencyGraph.DependencyGraph.Kahn | src/datastructure/dependency_graph.py:48-54 | each extracted node comes after all its dependencies, and every node left over still depends on another node left over |
| DependencyGraph.DependencyGraph.ReleaseDependees | src/datastructure/dependency_graph.py:50-53 | releasing the popped node removes it from its dependees' dependencies and queues, once each, exactly the dependees left with none |
| DependencyGraph.KahnStep | src/datastructure/dependency_graph.py:48-54 | one extraction keeps the loop invariant and makes the result longer, so the loop ends |
| DependencyGraph.KahnOutcome | src/datastructure/dependency_graph.py:56-58 | the order lists distinct nodes, each after its dependencies, and lists them all exactly when the data relation has no cycle |
| DependencyGraph.LeftoverIsCore | src/datastructure/dependency_graph.py:56-57 | the nodes Kahn's algorithm leaves unextracted form a cycle-carrying core of the relation |
| DependencyGraph.NoCoreInOrder | src/datastructure/dependency_graph.py:56-57 | the elements of any sequence that lists dependencies first are acyclic |
| DependencyGraph.DepsEarlierIsTopological | src/datastructure/dependency_graph.py:54 | a duplicate-free sequence in which dependencies come earlier is a topological order |
| DependencyGraph.NodeOrderToDataOrder | src/datastructure/dependency_graph.py:54 | an order of nodes with dependencies first carries over to their data |
| DependencyGraph.CreatedForDone | src/datastructure/dependency_graph.py:18-21 | after the first loop the index covers exactly the data of the graph and each entry is a new node with that data |
| DependencyGraph.AllLinked | src/datastructure/dependency_graph.py:23-26 | once every node's edges are linked, the copy's edges are exactly the original's and none dangles |
| DependencyTree.CarriesMeansBelow | src/datastructure/dependency_tree.py:29-33 | "the tree carries `d`" means exactly that some subtree strictly below the root has `d` as its data |
| DependencyTree.NewNode | src/datastructure/dependency_tree.py:10-12 | a new node carries the data and has nothing below it |
| DependencyTree.AddChild | src/datastructure/dependency_tree.py:14-15 | the children after the call are the old children plus the new one; a child already present is not added again, and otherwise the length grows by the new subtree's size |
| DependencyTree.Dependencies | src/datastructure/dependency_tree.py:53-60 | the list holds exactly the subtrees at every depth below the root, one entry per node |
| DependencyTree.Len | src/datastructure/dependency_tree.py:62-63 | `len` is the number of nodes below the root |
| DependencyTree.FindImmediateChild | src/datastructure/dependency_tree.py:42-51 | the answer is the first child carrying the data, and None exactly when no child carries it |
| DependencyTree.FindChild | src/datastructure/dependency_tree.py:29-40 | as written: any answer is a subtree below the root carrying the data, a matching direct child is returned when there is one, and None is returned when no descendant carries the data |
| DependencyTree.FindList | src/datastructure/dependency_tree.py:35-39 | the loop's answer is the previous answer or a hit in the children still to visit, and the first matching child when there is one |
| DependencyTree.FindChildLosesDeepHit | src/datastructure/dependency_tree.py:35-39 | for root 0 with children 1 (holding 3) and 2, searching for 3 answers None although 3 is below the root |
| DependencyTree.FindDescendant | src/datastructure/dependency_tree.py:29-33 | the documented search finds a subtree carrying the data exactly when one exists below the root |
| DependencyTree.HitIndex | src/datastructure/dependency_tree.py:19-26 | the child at which `remove_child_from_tree` stops is the first that carries the data or has it below, every earlier child having neither |
| DependencyTree.RemoveChildShape | src/datastructure/dependency_tree.py:17-27 | removal changes only the child at the hit: it is dropped when it carries the data (and is what is returned), otherwise replaced by itself with the subtree removed; every other child stays in place |
| DependencyTree.RemoveChildFromTree | src/datastructure/dependency_tree.py:17-27 | the removed subtree carries the data and was below the root; it is None exactly when no descendant carries the data, and then the tree is unchanged; otherwise the tree shrinks by exactly the removed subtree's size |
| DependencyTree.RemoveTakesFound | src/datastructure/dependency_tree.py:17-27 | the subtree removed is the one the documented search finds |
| EnumProcessor.VerboseClass | src/frontend/enum_processor.py:12-16 | one class keeps its keys; each bare name becomes `{"id": name}` and every other value is kept |
| EnumProcessor.VerboseEnums | src/frontend/enum_processor.py:11-16 | every class of the table is made verbose and no class is added or dropped |
| EnumProcessor.VerboseEnumsSettles | src/frontend/enum_processor.py:11-16 | after the pass no bare name is left, a second pass changes nothing, and each wrapped name stays under `id` |
| EnumProcessor.VerboseEnumsFixed | src/frontend/enum_processor.py:15 | a table with no bare name is left as it is |
| EnumProcessor.EnumScope | src/frontend/enum_processor.py:8-21 | the pass on a scope changes only its `enums` (made verbose) and its nested types (each processed), and keeps which of them exist |
| EnumProcessor.EnumDefs | src/frontend/enum_processor.py:18-21 | the nested types keep their names and order |
| EnumProcessor.SettledIsFixed | src/frontend/enum_processor.py:8-21 | a tree without bare names at any depth is a fixed point of the pass |
| EnumProcessor.EnumScopeSettles | src/frontend/enum_processor.py:8-21 | the pass leaves no bare name at any depth, so running it twice is running it once |
| EnumProcessor.EnumDefsAt | src/frontend/enum_processor.py:20-21 | entry `j` of the processed list is nested type `j` with its own pass applied |
| EnumProcessor.EnumProcessor.PreProcess | src/frontend/enum_processor.py:8-21 | the in-place pass leaves exactly the pure pass's result |
| EnumProcessor.EnumProcessor.ProcessEnums | src/frontend/enum_processor.py:10-16 | the loop over the classes replaces the table by its verbose form and changes nothing else |
| EnumProcessor.EnumProcessor.ProcessTypes | src/frontend/enum_processor.py:18-21 | the loop over `types` replaces each body by its processed form, in order, and changes nothing else |
| EnumProcessor.VerboseItems | src/frontend/enum_processor.py:12-16 | the loop over one class computes the verbose class |
| TypeProcessor.SuffixEntry | src/frontend/type_processor.py:13-15 | an attribute without `type` raises KeyError; one of the eight endian-free tags gets the endianness appended; any other attribute is unchanged |
| TypeProcessor.SuffixSeq | src/frontend/type_processor.py:13-15 | a successful pass keeps the number of attributes |
| TypeProcessor.SuffixSeqPointwise | src/frontend/type_processor.py:13-15 | the pass succeeds exactly when every attribute has a `type` and the appended endianness is a string wherever it is needed, and then rewrites each attribute on its own |
| TypeProcessor.SuffixEntryIdempotent | src/frontend/type_processor.py:14-15 | a suffixed tag is no longer endian-free, so a second run changes nothing |
| TypeProcessor.SuffixSeqIdempotent | src/frontend/type_processor.py:13-15 | running the pass on its own output gives the same output |
| TypeProcessor.SuffixSeqIdentity | src/frontend/type_processor.py:13-15 | a `seq` that every attribute passes through unchanged is left as it is |
| TypeProcessor.TypeProcessor.PostProcess | src/frontend/type_processor.py:12-15 | a missing `seq` raises KeyError and changes nothing; otherwise the in-place loop succeeds exactly when the pure pass does and leaves its result, or fails with its error |
| TypeProcessor.NewTypeProcessor | src/frontend/type_processor.py:5-7 | construction fails with KeyError("meta") or KeyError("endian") exactly when either is missing, and otherwise records the source and its endianness |
| ValidProcessor.ValidEntry | src/frontend/valid_processor.py:11-18 | a dict-valued `valid` is replaced by `-fz-range-min`/`-max` taken from its non-None `min`/`max`; any other attribute is unchanged |
| ValidProcessor.ValidEntryIdempotent | src/frontend/valid_processor.py:11-18 | after the rewrite no dict-valued `valid` is left, so a second rewrite changes nothing |
| ValidProcessor.ValidEntries | src/frontend/valid_processor.py:10-18 | the loop rewrites each attribute on its own and keeps their number and order |
| ValidProcessor.ValidEntriesSettle | src/frontend/valid_processor.py:10-18 | over a whole `seq` the rewrite leaves no dict-valued `valid` and is idempotent |
| ValidProcessor.ValidDefs | src/frontend/valid_processor.py:20-23 | the processed nested types keep their number |
| ValidProcessor.ValidScopeSettles | src/frontend/valid_processor.py:8-23 | the only error is KeyError("seq"); a successful result has no dict-valued `valid` at any depth and a second run leaves it unchanged |
| ValidProcessor.ValidDefsStep | src/frontend/valid_processor.py:22-23 | a nested type that fails makes the walk fail, and one that succeeds is written back before the walk goes on |
| ValidProcessor.ValidDefsAgain | src/frontend/valid_processor.py:20-23 | running the nested passes again on nested types they already processed gives those types back unchanged, each settled |
| ValidProcessor.ValidProcessor.PreProcess | src/frontend/valid_processor.py:8-23 | the in-place pass succeeds exactly when the pure pass does and then leaves its result; its only error is KeyError("seq") |
| ValidProcessor.ValidProcessor.ProcessTypes | src/frontend/valid_processor.py:20-23 | the loop over `types` writes each processed body back and fails exactly when a nested pass does |
| ValidProcessor.ValidProcessor.ProcessSeq | src/frontend/valid_processor.py:9-18 | the loop over `seq` rewrites each attribute in place and changes nothing else |
| RefProcessor.IdsOf | src/frontend/ref_processor.py:46-49 | `_available_ref` is the list of the `seq` ids in `seq` order |
| RefProcessor.RefEdgesSound | src/frontend/ref_processor.py:25-44 | every edge "a depends on b" comes from an attribute with id `a` one of whose reference keys holds a string with a token naming `b`, and `b` is an id of the `seq` |
| RefProcessor.RefEdgesComplete | src/frontend/ref_processor.py:25-44 | conversely every such token that names an id gives the edge |
| RefProcessor.KeysEdgesSound | src/frontend/ref_processor.py:29-44 | the edges of one attribute come from tokens of its reference keys that name ids |
| RefProcessor.KeysEdgesComplete | src/frontend/ref_processor.py:29-44 | every token of one attribute's reference key that names an id gives an edge |
| RefProcessor.RefCheck | src/frontend/ref_processor.py:13-44 | graph construction succeeds exactly when every attribute has an id, every id can be a dict key and every attribute has a type |
| RefProcessor.RefDefsStep | src/frontend/ref_processor.py:58-61 | a failing nested pass decides the result of the list, and a succeeding one lets the walk go on |
| RefProcessor.StripDefsPointwise | src/frontend/ref_processor.py:58-61 | the nested results keep their names and order, each body processed on its own |
| RefProcessor.CreateNodes | src/frontend/ref_processor.py:16-20 | the first loop makes one node per distinct id in a dict keyed by id, a repeated id replacing the earlier node; a list or dict id cannot be a key |
| RefProcessor.LinkOne | src/frontend/ref_processor.py:44 | one `depends_on` call adds exactly that edge to the graph, on both sides |
| RefProcessor.LinkTokens | src/frontend/ref_processor.py:42-44 | the innermost loop adds an edge to each token that names an attribute |
| RefProcessor.LinkKeys | src/frontend/ref_processor.py:29-44 | the loop over the reference keys adds exactly the attribute's key edges, skipping `size` for a custom type and non-string values |
| RefProcessor.LinkAll | src/frontend/ref_processor.py:26-44 | the linking loop succeeds exactly when every attribute has a type, and the graph then holds exactly the reference edges of the `seq`, both sides recorded |
| RefProcessor.NodeList | src/frontend/ref_processor.py:21 | the node list handed to `add_nodes` holds each id's node once |
| RefProcessor.GraphBuilt | src/frontend/ref_processor.py:13-44 | a graph with one node per id, linked by the reference edges and counted correctly, is the one built for the `seq` |
| RefProcessor.RefProcessor.PostProcess | src/frontend/ref_processor.py:54-61 | the pass succeeds exactly when the pure pass does, with its error otherwise; on success the scope holds the id list and, at every depth, the graph of its own `seq` |
| RefProcessor.RefProcessor.ConstructAvailableRef | src/frontend/ref_processor.py:46-49 | a missing `seq` or `id` raises KeyError; otherwise the scope gains the id list and nothing else changes |
| RefProcessor.RefProcessor.ConstructDependencyGraph | src/frontend/ref_processor.py:13-44 | a fresh graph is stored before anything can fail; the outcome is the first failure `RefCheck` names, and on success the graph is the one built for the `seq` |
| RefProcessor.RefProcessor.Populate | src/frontend/ref_processor.py:16-44 | filling the stored graph gives `RefCheck`'s outcome and, on success, the built graph |
| RefProcessor.RefProcessor.RunNested | src/frontend/ref_processor.py:61 | a nested pass on one body agrees with the pure pass and leaves the graphs already built as they are |
| RefProcessor.RefProcessor.ProcessTypes | src/frontend/ref_processor.py:58-61 | the loop over `types` agrees with the pure walk and every processed body holds its own built graph |
| Indenter.Indented | src/backend/utils/indenter.py:37-41 | without line feeds the line is the fill repeated width × level times (none for a count below 1) followed by the line; with them the result always ends in a line feed |
| Indenter.RepeatAdd | src/backend/utils/indenter.py:38 | `s * m + s * n == s * (m + n)` for non-negative counts |
| Indenter.IndentByShape | src/backend/utils/indenter.py:37-41 | with a fill that is not a line feed, the line keeps its text after the prefix and gains a line feed only when it lacks one |
| Indenter.IndentedCompose | src/backend/utils/indenter.py:37-41 | indenting twice is indenting once by the sum of the levels, and with line feeds on the second pass adds no second line feed |
| Indenter.Indenter.constructor | src/backend/utils/indenter.py:6-12 | a negative indentation becomes 0 and the level starts at 0 |
| Indenter.Indenter.Reset | src/backend/utils/indenter.py:14-15 | the level goes back to 0 and the settings are kept |
| Indenter.Indenter.Indent | src/backend/utils/indenter.py:17-20 | a negative count raises ValueError and changes nothing; otherwise the level goes up by the count |
| Indenter.Indenter.Unindent | src/backend/utils/indenter.py:22-26 | a negative count raises ValueError; the whole count is taken off only while the level is above 0, so a count above the level drives it below 0 |
| Indenter.Indenter.Applied | src/backend/utils/indenter.py:46-47 | every line is indented at the current level, and the number of lines is kept |
| Indenter.Indenter.ApplyList | src/backend/utils/indenter.py:43-48 | a list is rewritten in place, line by line, and the same list is returned |
| Indenter.Indenter.ApplyText | src/backend/utils/indenter.py:43-48 | a string is split with `splitlines` and each line indented, in a new list |
| Indenter.Indenter.AppendLine | src/backend/utils/indenter.py:28-30 | the indented line is appended to the caller's list, which is returned |
| Indenter.Indenter.AppendLines | src/backend/utils/indenter.py:32-35 | the lines are indented in place and appended to the caller's list, which is returned; when both are the same list it ends up holding the indented lines twice |
| IndenterLegacy.Indenter.constructor | src/backend/py3/utils/indenter.py:6-11 | a negative indentation becomes 0 and the level starts at 0 |
| IndenterLegacy.Indenter.Reset | src/backend/py3/utils/indenter.py:13-14 | the level goes back to 0 |
| IndenterLegacy.Indenter.Indent | src/backend/py3/utils/indenter.py:16-17 | the level goes up by one |
| IndenterLegacy.Indenter.Unindent | src/backend/py3/utils/indenter.py:19-21 | the level goes down by one but never below 0 |
| IndenterLegacy.Indenter.ApplyToLine | src/backend/py3/utils/indenter.py:27 | the line gets the fill repeated indentation × level times, and no prefix at all at indentation 0 or level 0 |
| IndenterLegacy.Indenter.ApplyList | src/backend/py3/utils/indenter.py:23-28 | a list is rewritten in place, line by line, and the same list is returned |
| IndenterLegacy.Indenter.ApplyText | src/backend/py3/utils/indenter.py:23-28 | a string is split with `splitlines` and each line prefixed, in a new list |
| IndenterLegacy.MultipleLevels | tests/backend/py3/utils/test_indenter.py:76-92 | with a tab and width 1, two lines come back with no prefix, then one, two and again one tab as the level goes up twice and down once |
| IndenterLegacy.UnindentAtZero | tests/backend/py3/utils/test_indenter.py:33-38 | `unindent` at level 0 keeps the level at 0, so two lines split at LF or CR LF come back unprefixed |
| Text.SplitTwoLines | tests/backend/py3/utils/test_indenter.py:66-74 | two lines joined by LF or CR LF, the last unterminated, split back into those two lines |
| SeekableBuffers.FillZeroInside | src/backend/py3/include/_00_seekable_buffer.py:47-53 | inside the data the zero fill zeroes exactly the positions in its range and keeps the rest |
| SeekableBuffers.FillZeroPastEnd | src/backend/py3/include/_00_seekable_buffer.py:49-53 | a zero fill that reaches past the end of the data raises IndexError |
| SeekableBuffers.CopyCount | src/backend/py3/include/_00_seekable_buffer.py:43-46 | the copy writes no more bytes than the source has and stops before the window end |
| SeekableBuffers.Copied | src/backend/py3/include/_00_seekable_buffer.py:43-46 | the copied data keeps its length, holds the source bytes at the destination positions and is unchanged elsewhere |
| SeekableBuffers.Moved | src/backend/py3/include/_00_seekable_buffer.py:30-53 | the move fails with ValueError exactly when a nonzero offset would move data before the start, or with IndexError from a fill; on success the length is kept |
| SeekableBuffers.CopyStaysInWindow | src/backend/py3/include/_00_seekable_buffer.py:43-46 | the copy never writes at or beyond the window end |
| SeekableBuffers.MoveRight | src/backend/py3/include/_00_seekable_buffer.py:30-50 | moving right with room in the window puts the bytes from the pointer `offset` places later, cut at the end, and zeroes the places they left |
| SeekableBuffers.Window | src/backend/py3/include/_00_seekable_buffer.py:7-18 | a given start at or past the data's end raises ValueError (even 0 on empty data), so does an end before the start; otherwise the start is clamped up to 0 and the end down to the data's length |
| SeekableBuffers.SeekableBuffer.Create | src/backend/py3/include/_00_seekable_buffer.py:7-22 | construction fails exactly when the window is invalid, and otherwise holds the data and bounds with the pointer at the start |
| SeekableBuffers.SeekableBuffer.Len | src/backend/py3/include/_00_seekable_buffer.py:97-98 | `len` is the window size, between 0 and the data's length, and 0 exactly for an empty window |
| SeekableBuffers.SeekableBuffer.GetFullData | src/backend/py3/include/_00_seekable_buffer.py:77-79 | the full data is exactly the window's bytes, as many as `len` |
| SeekableBuffers.SeekableBuffer.IsSubbuffer | src/backend/py3/include/_00_seekable_buffer.py:84-86 | a buffer is a sub-buffer exactly when its window is not the whole data |
| SeekableBuffers.SeekableBuffer.GetData | src/backend/py3/include/_00_seekable_buffer.py:65-75 | the result is the data from the pointer to `min(ptr + n, end)` and the pointer moves there; nothing else changes, a non-negative count keeps the pointer in the window and reading everything reaches the end |
| SeekableBuffers.SeekableBuffer.Seek | src/backend/py3/include/_00_seekable_buffer.py:88-95 | a negative offset raises ValueError and keeps the pointer; otherwise the pointer is `min(start + offset, end)`, and end-of-stream holds exactly when the offset is at least `len` |
| SeekableBuffers.SeekableBuffer.Append | src/backend/py3/include/_00_seekable_buffer.py:55-58 | the bytes are added to the data, the end moves by their number, and the start and pointer stay |
| SeekableBuffers.SeekableBuffer.GrowBuf | src/backend/py3/include/_00_seekable_buffer.py:24-28 | a sub-buffer raises BufferError and is unchanged; otherwise n zero bytes are added and the end moves by n, leaving a whole-data buffer |
| SeekableBuffers.SeekableBuffer.MoveData | src/backend/py3/include/_00_seekable_buffer.py:30-53 | the data becomes the specified move, and the pointer and window never change |
| SeekableBuffers.SeekableBuffer.CopyLoop | src/backend/py3/include/_00_seekable_buffer.py:42-46 | the copy loop writes exactly the copied bytes |
| SeekableBuffers.SeekableBuffer.FillLoop | src/backend/py3/include/_00_seekable_buffer.py:47-53 | the fill loop gives the specified zero fill or its IndexError |
| Rng.RandInt | src/backend/include/py3/ks_helper.py:118-119 | `randint(a, b)` returns a value in [a, b] and raises ValueError exactly for an empty range |
| Rng.RandBytes | src/backend/include/py3/ks_helper.py:46 | `randbytes(n)` returns exactly n bytes and raises ValueError exactly for a negative count |
| Rng.Choice | src/backend/py3/include/_90_ks_helper.py:158-159 | `choice(s)` returns an element of `s` and raises IndexError exactly for an empty sequence |
| KsHelper.DrawBound | src/backend/include/py3/ks_helper.py:59-71 | the largest code point drawn with k bytes left is 0x7F, 0x7FF, 0xFFFF or 0x10FFFF, and every character up to it fits in the k bytes |
| KsHelper.DrawChar | src/backend/include/py3/ks_helper.py:59-76 | one draw is at most the bound, never a surrogate, and its UTF-8 form fits in what is left |
| KsHelper.FillUtf8 | src/backend/include/py3/ks_helper.py:59-79 | the generation loop never drives the count below 0, so the text encodes to exactly the budget in bytes (nothing for a budget of 0 or less) |
| KsHelper.RandBytes | src/backend/include/py3/ks_helper.py:38-48 | `rand_bytes` raises ValueError exactly for n ≤ 0 and otherwise returns exactly n bytes |
| KsHelper.ChunkedBytes | src/backend/include/py3/ks_helper.py:43-47 | the chunk loop, each chunk at most 65536 bytes, draws exactly n bytes |
| KsHelper.RandUtf8 | src/backend/include/py3/ks_helper.py:50-82 | `rand_utf8` raises ValueError exactly for n ≤ 0 or a terminator whose UTF-8 form is longer than n; otherwise it returns n bytes of well-formed UTF-8 ending with the terminator's encoding |
| KsHelper.RandAscii | src/backend/include/py3/ks_helper.py:84-101 | `rand_ascii` raises ValueError exactly for n ≤ 0, a non-ASCII terminator or one longer than n; otherwise n bytes, all below 128, ending with the terminator |
| KsHelper.RandIso8859 | src/backend/include/py3/ks_helper.py:103-116 | `rand_iso8859` raises ValueError for n ≤ 0 or a name not starting with `iso8859` in any case, passes the codec's errors through, and raises for a terminator of n or more bytes (because `rand_bytes(0)` raises); otherwise n bytes ending with the encoded terminator |
| KsHelper.RandInt | src/backend/include/py3/ks_helper.py:118-119 | `rand_int` returns a value in [start, end] and fails exactly for an empty range |
| KsHelper.RandIntDefault | src/backend/include/py3/ks_helper.py:118-119 | `rand_int()` with the default bounds always succeeds, with a value in [-32767, 32767] |
| KsHelper.BytesToUint | src/backend/include/py3/ks_helper.py:121-123 | `bytes_to_uint` fails exactly for a byte order other than "big" or "little" and gives a value in [0, 256^n) |
| KsHelper.BytesToInt | src/backend/include/py3/ks_helper.py:125-127 | `bytes_to_int` fails exactly for a byte order other than "big" or "little" and gives a two's-complement value in [-256^n/2, 256^n/2) |
| KsHelper.BytesToUintBig | src/backend/include/py3/ks_helper.py:121-127 | the big-endian bytes of a value read back as that value, and the signed reading agrees below the sign bit |
| KsHelper.BytesToIntExamples | tests/backend/py3/include/test_ks_helper.py:83-95 | `ff ff` is 65535 read little-endian unsigned and -1 read big-endian signed |
| KsHelper.ReplaceBytes | src/backend/include/py3/ks_helper.py:129-144 | a negative start raises ValueError; a start at or past the end appends; otherwise the result is the prefix up to the start, then the new bytes, then the original from past them |
| KsHelper.Inplace | src/backend/include/py3/ks_helper.py:148-149 | an empty replacement leaves the bytearray as it is |
| KsHelper.ReplaceStep | src/backend/include/py3/ks_helper.py:153-160 | writing the first new byte at the position leaves the same replacement to do for the rest, one position on |
| KsHelper.InplaceIsReplace | src/backend/include/py3/ks_helper.py:146-161 | for a non-negative start the in-place version leaves exactly what `replace_bytes` returns for the start clamped to the length |
| KsHelper.InplaceNegativeStart | src/backend/include/py3/ks_helper.py:150-160 | a negative start is not rejected: the writes wrap round to the end and then go on from position 0 |
| KsHelper.InplaceReplaceBytes | src/backend/include/py3/ks_helper.py:146-161 | the same bytearray is updated and returned, and its new contents are the specified in-place replacement |
| KsHelper.ExtractBytes | src/backend/include/py3/ks_helper.py:163-172 | (-1, -1) extracts the whole input, and a start and end both given and in range extract that slice |
| KsHelper.ExtractEndMissing | src/backend/include/py3/ks_helper.py:170-171 | an end of -1 makes the start act as an end: `(s, -1)` extracts the prefix `b[:s]`, the same as `(-1, s)` |
| KsHelper.ExtractReplaced | src/backend/include/py3/ks_helper.py:129-172 | extracting the replaced range gives back the new bytes |
| KsHelper90.ResolveSize | src/backend/py3/include/_90_ks_helper.py:43-50 | a negative size with a maximum is replaced by a draw from [min, max], negative bounds and an empty range raising ValueError; a size still negative raises ValueError |
| KsHelper90.RandBytes | src/backend/py3/include/_90_ks_helper.py:41-59 | `rand_bytes` fails exactly when the size is refused and otherwise returns as many bytes as the size resolves to, none for 0 |
| KsHelper90.RandUtf8 | src/backend/py3/include/_90_ks_helper.py:61-99 | one byte is reserved for any terminator whatever its length, so the UTF-8 form is size − 1 + the terminator's length and ends with it; size 0 with a terminator or a terminator that is not UTF-8 raises, and without a terminator the text encodes to the resolved size |
| KsHelper90.RandAscii | src/backend/py3/include/_90_ks_helper.py:101-124 | the same size accounting with characters below 128; a terminator byte above 127 raises ValueError |
| KsHelper90.RandIso8859 | src/backend/py3/include/_90_ks_helper.py:126-147 | n ≤ 0 or a name not starting with `iso8859` raises ValueError before the size range is read, so the range has no effect; otherwise the result is the codec's decoding of n − 1 random bytes and the terminator (n without one) |
| KsHelper90.RandInt | src/backend/py3/include/_90_ks_helper.py:149-150 | `rand_int` returns a value in [start, end] inclusive and fails exactly for an empty range |
| KsHelper90.RandIntDefault | src/backend/py3/include/_90_ks_helper.py:149-150 | `rand_int()` with the default bounds always succeeds, with a value in [-32767, 32767] |
| KsHelper90.RandChoice | src/backend/py3/include/_90_ks_helper.py:158-159 | `rand_choice` returns an element of the sequence and raises IndexError exactly for an empty one |
| KsHelperLegacy.RandBytes | include/py3/ks_helper.py:38-39 | `rand_bytes` returns exactly n bytes, none for 0, and raises ValueError for a negative count |
| KsHelperLegacy.RandUtf8 | include/py3/ks_helper.py:41-63 | `rand_utf8` returns exactly n bytes of well-formed UTF-8 for n ≥ 1 and no bytes for n ≤ 0 |
| BaseTypeCodeGenerator.GenBytes | src/backend/py3/base_type_code_generator.py:10-15 | a positive count is accepted and becomes `rand_bytes(n)` on the helper; a count of 0 or below raises the ValueError with the source's message, and a value with no order against 0 raises TypeError |
| BaseTypeCodeGenerator.GenBytesArgs | src/backend/py3/base_type_code_generator.py:10-15 | an accepted count is at least 1 and is the single argument that reads back from the emitted `rand_bytes` call |
| BaseTypeCodeGenerator.GenWithRange | src/backend/py3/base_type_code_generator.py:144-176 | a tag missing from the table raises KeyError; an integer tag gives exactly the range-checked `rand_int` call for that tag; every other base tag fails with an error that is not KeyError, raw bytes with TypeError because `gen_bytes_fn` has no `start` |
| ValueCodeGenerator.Elements | src/backend/py3/value_code_generator.py:22-28 | iterating the contents succeeds exactly for a str, a list or a dict, giving a list's own items, a str's one-character strings, or a dict's keys, each key once |
| ValueCodeGenerator.KeyItems | src/backend/py3/value_code_generator.py:22 | iterating a dict yields as many items as the dict has keys |
| ValueCodeGenerator.KeyItemsAreKeys | src/backend/py3/value_code_generator.py:22 | iterating a dict yields every key, nothing else, and no key twice |
| ValueCodeGenerator.DictContentsOk | src/backend/py3/value_code_generator.py:22-28 | dict contents convert exactly when every int key is a byte value, whatever the key order |
| Values.KeyValue | src/backend/py3/value_code_generator.py:22 | a dict yields its keys themselves: an int key as an int, a str key as a str |
| Values.SortedKeys | src/backend/py3/value_code_generator.py:22 | a finite set of keys listed once each, in a fixed total order, nothing added or lost |
| Values.KeyLeOrder | src/backend/py3/value_code_generator.py:22 | the key order used for dict iteration is total, antisymmetric and transitive |
| ValueCodeGenerator.ElementBytes | src/backend/py3/value_code_generator.py:22-28 | a str element adds its UTF-8 encoding; an int element adds one byte exactly when it lies in 0..255 (OverflowError otherwise); any other element raises the TypeError with the source's message |
| ValueCodeGenerator.ItemsBytesOk | src/backend/py3/value_code_generator.py:22-28 | the contents loop completes if and only if every element converts |
| ValueCodeGenerator.ItemsBytesErrExtends | src/backend/py3/value_code_generator.py:22-28 | the first failing element decides the error: appending more elements does not change it |
| ValueCodeGenerator.StrContentsEncode | src/backend/py3/value_code_generator.py:22-24 | text contents, visited character by character, give the UTF-8 encoding of the whole text |
| ValueCodeGenerator.ByteListContents | src/backend/py3/value_code_generator.py:25-26 | a list of byte values gives exactly those bytes, in order |
| ValueCodeGenerator.GenBytesFixedContents | src/backend/py3/value_code_generator.py:20-29 | the append loop computes the fixed-contents result, and the bytes literal it returns reads back to exactly the converted contents |
| ValueCodeGenerator.GenBytes | src/backend/py3/value_code_generator.py:31-45 | contents other than None take precedence; otherwise a negative int count raises ValueError, 0 gives the empty bytes literal, and a positive count or a size expression gives `rand_bytes(n)` |
| ValueCodeGenerator.TermOutOfRange | src/backend/py3/value_code_generator.py:170 | for a numeric terminator the range test holds exactly when it lies outside 0..255; a terminator with no order raises TypeError |
| ValueCodeGenerator.TermText | src/backend/py3/value_code_generator.py:175 | None prints as `None`; an in-range int prints as a one-byte literal that reads back to that byte; an out-of-range int raises OverflowError and a non-int AttributeError |
| ValueCodeGenerator.GenStr | src/backend/py3/value_code_generator.py:166-187 | the call is produced exactly when the size is a positive int or an expression, the terminator converts, and the upper-cased encoding is UTF-8, ASCII or one of the ISO 8859 names; each failure gives the source's error, and a produced call names the helper for its encoding with the size, the encoding name for ISO 8859 only, and the terminator |
| ValueCodeGenerator.EncodingArgsIso | src/backend/py3/value_code_generator.py:176-184 | the encoding name is passed on if and only if the helper chosen is `rand_iso8859` |
| ValueCodeGenerator.GenStrz | src/backend/py3/value_code_generator.py:189-190 | whatever terminator is passed, the result is the string call with terminator 0: accepted exactly when the size and the encoding are, and ending in the literal of the byte 0 |
| ValueCodeGenerator.GenEnum | src/backend/py3/value_code_generator.py:192-195 | the emitted call is `rand_choice` on the helper whose one argument is the list of the enum class under its sanitised name |
| ValueCodeGenerator.FloatCall | src/backend/py3/value_code_generator.py:138-164 | the float generators succeed exactly for numeric bounds, ignore the range, and emit `rand_float()` for the 4-byte tags and `rand_double()` for the 8-byte tags |
| ValueCodeGenerator.GenerateCode | src/backend/py3/value_code_generator.py:201-221 | a missing `type` raises KeyError and an unhashable one TypeError; a str that is not a base type gives the constructor call of its sanitised class name; the other branches are those of `GenerateCodeBranches` |
| ValueCodeGenerator.GenerateCodeBranches | src/backend/py3/value_code_generator.py:204-218 | integer tags take `valid`, then `enum`, then the range; float tags take `valid`, then the range; None takes `size` and `contents`; `str` and `strz` take `size`, `encoding` and `terminator` |
| ValueCodeGenerator.FullRangeInt | src/backend/py3/value_code_generator.py:204-210 | with no `valid` and no `enum`, bounds equal to the whole range of the tag give a `rand_int` call over exactly that range |
| ValueCodeGenerator.DefaultedIntGenerates | src/backend/py3/value_code_generator.py:201-210 | after the defaults pass a plain integer attribute is accepted and draws from the whole range of its tag |
| ValueCodeGenerator.DefaultedFloatGenerates | src/backend/py3/value_code_generator.py:211-214 | after the defaults pass a float attribute with no `valid` and no range of its own is accepted |
| CodeGenerator.RStripDelims | src/backend/py3/code_generator.py:43 | the result is a prefix of the text that does not end in a comma or a space, and everything stripped is commas and spaces |
| CodeGenerator.KwTexts | src/backend/py3/code_generator.py:40-41 | one `k=v` text per keyword argument, in the order of the call |
| CodeGenerator.KsHelperFnCall | src/backend/py3/code_generator.py:34-45 | the two appending loops and the final strip build exactly the call text of the specification function `FnCallText` |
| CodeGenerator.DelimitedJoin | src/backend/py3/code_generator.py:38-41 | the pieces each followed by the delimiter are the `", "`-join of the pieces plus one trailing delimiter |
| CodeGenerator.FnCallClean | src/backend/py3/code_generator.py:34-45 | when the last argument does not end in a comma or a space (or there are none) the text is exactly `ks_helper.fn(p1, p2, ...)` of the positional then keyword arguments |
| CodeGenerator.FnCallDropsEmptyLast | src/backend/py3/code_generator.py:43 | as written, the strip also removes an empty last argument together with the delimiter before it: `f("a", "")` is written `ks_helper.f(a)` |
| CodeGenerator.StructFormatMeaning | src/backend/py3/code_generator.py:102-158 | a tag has a `struct` format exactly when it is a one-byte or suffixed integer or float tag; the format's order mark matches the suffix and its character matches the tag's width and, for integers, its signedness |
| CodeGenerator.UnpackableIntTags | src/backend/py3/code_generator.py:157-158 | the unsuffixed integer tags of 2, 4 and 8 bytes have no format and fall to NotImplementedError |
| CodeGenerator.UnpackableFloatTags | src/backend/py3/code_generator.py:157-158 | the unsuffixed float tags have no format and fall to NotImplementedError |
| CodeGenerator.BaseTagsCovered | src/backend/py3/code_generator.py:102-158 | the listed tags cover every integer and float tag: any other tag has no format |
| CodeGenerator.PackRangeIsTagRange | src/backend/py3/code_generator.py:102-144 | for a packable integer tag, the integers its format character accepts are exactly the default range of the tag |
| CodeGenerator.EntryLine | src/backend/py3/code_generator.py:166-173 | the statement exists exactly when the attribute is drawable; a missing `id` or `type` raises KeyError, a failed lookup its own error, and a produced statement assigns `self.<id>` |
| CodeGenerator.IndentedLine | src/backend/utils/indenter.py:37-41 | the generator's indenter turns a text into its indented line whether or not the text already ends with a line feed |
| CodeGenerator.GenerateSeqEntry | src/backend/py3/code_generator.py:166-174 | the method's result is the one-line list of the entry statement with its line feed, or the entry statement's error |
| CodeGenerator.PackLine | src/backend/py3/code_generator.py:99-158 | the packing statement exists exactly when `id` and `type` are present and the tag has a format; a missing key raises KeyError and a tag without a format NotImplementedError |
| CodeGenerator.Outcomes | src/backend/py3/code_generator.py:88-89 | one outcome per attribute, in the attributes' order |
| CodeGenerator.Collect | src/backend/py3/code_generator.py:88-89 | the pass succeeds exactly when every outcome does, and then gives one line two levels deep per outcome, in order |
| CodeGenerator.CollectErrExtends | src/backend/py3/code_generator.py:88-89 | once a pass fails, later attributes do not change the error |
| CodeGenerator.CollectSnoc | src/backend/py3/code_generator.py:88-89 | one more successful outcome appends exactly its line |
| CodeGenerator.InitStatements | src/backend/py3/code_generator.py:87-89 | the first loop's result is the `__init__` pass of the specification, and on success `code` grows by exactly those lines |
| CodeGenerator.PackStatements | src/backend/py3/code_generator.py:98-158 | the second loop's result is the `generate` pass of the specification, and on success `code` grows by exactly those lines |
| CodeGenerator.OpenClass | src/backend/py3/code_generator.py:81-87 | a fresh indenter and list holding the class header, left two levels in |
| CodeGenerator.OpenGenerate | src/backend/py3/code_generator.py:90-98 | the blank line and the `generate` header are appended and the indenter is back at level 2 |
| CodeGenerator.CloseGenerate | src/backend/py3/code_generator.py:159-163 | the closing statements and the indented line feed are appended |
| CodeGenerator.GenerateClass | src/backend/py3/code_generator.py:78-164 | the method's result is the class text of the specification: header, `__init__` pass, `generate` header, `generate` pass, closing lines, or the first failure |
| CodeGenerator.PassStep | src/backend/py3/code_generator.py:88-89 | a pass that succeeded on the first `i` attributes and succeeds on the next adds exactly that one line |
| CodeGenerator.StopsAt | src/backend/py3/code_generator.py:88-89 | a pass that first fails on attribute `i` fails with that attribute's error |
| CodeGenerator.ClassTextParts | src/backend/py3/code_generator.py:78-164 | an `__init__` failure wins over a `generate` failure; with both passes successful the class is the five sections in order |
| CodeGenerator.ClassTextOk | src/backend/py3/code_generator.py:78-164 | a class is generated exactly when every attribute is drawable and its tag has a format |
| CodeGenerator.ClassTextLayout | src/backend/py3/code_generator.py:78-164 | attribute `i`'s `__init__` statement is line `3 + i` and its packing statement line `6 + n + i`, both two levels deep, in a class of `2n + 9` lines |
| CodeGenerator.ClassLinesComplete | src/backend/py3/code_generator.py:71-73 | every line of a generated class ends with a line feed, so the lines written are whole lines |
| CodeGenerator.DrawnValuesPack | src/backend/py3/code_generator.py:102-144 | every integer a drawable attribute with a format can be assigned in `__init__` is accepted by the format it is packed with |
| CodeGenerator.NoFloatPacked | src/backend/py3/code_generator.py:145-156 | no float attribute gets past `__init__`, so the float packing formats are never emitted |
| CodeGenerator.EntryPointText | src/backend/py3/code_generator.py:176-186 | four lines, each ending with a line feed, the second instantiating the entry class under its sanitised name |
| CodeGenerator.EntryPointNamesClass | src/backend/py3/code_generator.py:78-79 | the entry point instantiates the same class name that the class header declares for that schema name |
| CodeGenerator.DefaultedEntryLine | src/backend/py3/code_generator.py:166-173 | after the defaults pass a plain integer attribute is drawable and its statement draws from the whole range of its tag |
| CodeGenerator.DefaultedClassGenerates | src/backend/py3/code_generator.py:78-164 | a schema whose attributes are all plain integers with a one-byte or suffixed tag yields a class once the defaults pass has run |
| Py3Generator.ElementBytes | src/backend/py3_generator.py:197-206 | a str element adds its UTF-8 encoding; an int element adds itself exactly when it lies in 0..0xFF, otherwise the out-of-range ValueError naming its index; any other element the TypeError naming its index |
| Py3Generator.FlattenStep | src/backend/py3_generator.py:196-206 | one more element either appends its bytes or ends the run with its error |
| Py3Generator.FlattenErrExtends | src/backend/py3_generator.py:196-206 | once a run fails, a longer run fails with the same error |
| Py3Generator.FlattenStops | src/backend/py3_generator.py:196-206 | the first failing element decides the error |
| Py3Generator.FlattenOk | src/backend/py3_generator.py:196-206 | a run succeeds exactly when every element does |
| Py3Generator.ElementsBytes | src/backend/py3_generator.py:196 | element `i` is converted knowing its own index `i`, for every element in order |
| Py3Generator.ItemsBytesStops | src/backend/py3_generator.py:196-206 | the error of the contents loop is that of its first bad element, and names that element's index |
| Py3Generator.ItemsBytesAgree | src/backend/py3_generator.py:196-206 | the contents loop accepts exactly the runs the class-based backend's loop accepts, and then produces the same bytes |
| Py3Generator.HandleContentsKey | src/backend/py3_generator.py:190-207 | the method computes the contents statement of the specification: TypeError unless `contents` is a str or a list, the first element error otherwise, and on success a `return` statement whose bytes literal reads back to exactly the converted contents |
| Py3Generator.FnNameOf | src/backend/py3_generator.py:176 | sanitising the `id` succeeds exactly for a str and gives the sanitised function name |
| Py3Generator.SizeArg | src/backend/py3_generator.py:182-186 | raw bytes, `str` and `strz` need a `size` (KeyError without one) converted by `int()`; every other tag passes None |
| Py3Generator.GenTypeCall | src/backend/generator.py:155-158 | the call exists exactly when the tag is in the table, and is then the call of that tag's generator with the given size |
| Py3Generator.AttributeOutcome | src/backend/py3_generator.py:174-188 | KeyError without an `id`, an error for an `id` that is not a str, and otherwise a function named after the sanitised `id` whose body is the contents statement when `contents` is present, else the generator call, which needs a `size` for sized tags and a tag in the table |
| Py3Generator.ContentsFirst | src/backend/py3_generator.py:178-180 | with `contents` present, changing `type` or `size` does not change the function |
| Py3Generator.RawBytesSize | src/backend/py3_generator.py:182-187 | an attribute with no `type` and an int `size` gets a function returning `rand_bytes` of that size |
| Py3Generator.Fns | src/backend/py3_generator.py:249-250 | one function outcome per attribute, in `seq` order |
| Py3Generator.FnsTextAppend | src/backend/py3_generator.py:244-251 | the functions of a schema are those of its two halves one after the other, each depending on its own attribute only |
| Py3Generator.FnsTextOk | src/backend/py3_generator.py:244-251 | the functions are generated exactly when every attribute's function is |
| Py3Generator.CallLines | src/backend/py3_generator.py:234-240 | one call line per function name |
| Py3Generator.CallsTextLines | src/backend/py3_generator.py:233-240 | the calls are the call lines joined in order, each name called once, and only the first line lacks the `+` continuation |
| Py3Generator.NameOf | src/backend/py3_generator.py:235 | a name exists exactly when the `id` is a str, and is its sanitised function name; no `id` raises KeyError |
| Py3Generator.Sequenced | src/backend/py3_generator.py:234-240 | a successful run holds every outcome's value, in order |
| Py3Generator.SequencedStep | src/backend/py3_generator.py:234-240 | one more outcome appends its value or ends the run with its error |
| Py3Generator.SequencedStops | src/backend/py3_generator.py:234-240 | the first failing outcome decides the error |
| Py3Generator.Names | src/backend/py3_generator.py:234-235 | one name outcome per attribute, in order |
| Py3Generator.Python3Generator.constructor | src/backend/py3_generator.py:14-17 | the generator keeps the sanitised class name and the attributes as given |
| Py3Generator.Python3Generator.GenerateFn | src/backend/py3_generator.py:227-242 | the loop computes the `generate()` text of the specification: the head, one call line per attribute with the first lacking the `+`, the closing parenthesis, or the error of the first attribute without a usable `id` |
| Py3Generator.Python3Generator.GenerateFns | src/backend/py3_generator.py:244-251 | the loop computes the functions of the specification, stopping at the first error |
| Py3Generator.Python3Generator.SeqClass | src/backend/py3_generator.py:221-225 | the class header declares the sanitised class name |
| Py3Generator.Python3Generator.EntryPoint | src/backend/py3_generator.py:253-257 | the `__main__` block instantiates the sanitised class name |
| Py3GeneratorLegacy.TableIsFixedWidth | py3_generator.py:4-33 | the table holds exactly the integer and float tags, each mapped to the call the shared generator table makes for it (`rand_bytes` of the width in the tag's name), and has no `str` or `strz` entry |
| Py3GeneratorLegacy.TableCase | py3_generator.py:4-30 | every integer tag of a given width and signedness draws that width's number of bytes |
| Py3GeneratorLegacy.TableFloat | py3_generator.py:25-30 | every float tag draws the number of bytes its name says |
| Py3GeneratorLegacy.Lookup | py3_generator.py:117 | the lookup succeeds exactly for a str that is one of the table's tags and gives its entry; an unhashable type raises TypeError and any other miss KeyError |
| Py3GeneratorLegacy.SizeOf | py3_generator.py:100-107 | a size is computed exactly for raw bytes, `str` and `strz`: KeyError without `size`, `int(size)` for the first two and one less for `strz`; other tags have none |
| Py3GeneratorLegacy.FnOutcome | py3_generator.py:99-117 | a sized tag without `size` raises KeyError before the `id` is read; otherwise a missing `id` raises KeyError, and a function exists exactly when the size converts, the `id` is a str and an unsized tag is in the table |
| Py3GeneratorLegacy.AgreesWithClassBackend | py3_generator.py:97-119 | for an attribute without `contents` and a tag other than `strz`, this generator writes a function exactly when the class-based backend does, and the same text |
| Py3GeneratorLegacy.LookupAgrees | py3_generator.py:4-33 | off the sized tags this table answers exactly where the shared generator table does, with the same call |
| Py3GeneratorLegacy.SizedAgrees | py3_generator.py:110-113 | raw bytes and `str` return the same call as the shared generator's for the same size |
| Py3GeneratorLegacy.StrzIsShorterStr | py3_generator.py:106-115 | a `strz` attribute's function is that of a `str` attribute with the same `id` and a `size` one less, with the NUL byte appended to the returned value |
| Py3GeneratorLegacy.Fns | py3_generator.py:99-117 | one function outcome per attribute, in order |
| Py3GeneratorLegacy.FnsTextAppend | py3_generator.py:97-119 | the functions of a schema are those of its halves, one after the other |
| Py3GeneratorLegacy.FnsTextOk | py3_generator.py:97-119 | the functions are generated exactly when every attribute's function is |
| Py3GeneratorLegacy.Python3Generator.constructor | py3_generator.py:40-43 | the generator keeps the sanitised class name and the attributes as given |
| Py3GeneratorLegacy.Python3Generator.GenerateFn | py3_generator.py:83-95 | the loop computes the `generate()` text of the specification: one call line per attribute, the first without the `+`, or the error of the first unusable `id` |
| Py3GeneratorLegacy.Python3Generator.GenerateFns | py3_generator.py:97-119 | the loop computes the functions of the specification, stopping at the first error |
| Py3GeneratorLegacy.Python3Generator.SeqClass | py3_generator.py:77-81 | the class header declares the sanitised class name |
| Py3GeneratorLegacy.Python3Generator.EntryPoint | py3_generator.py:121-125 | the `__main__` block instantiates the sanitised class name |
| GeneratorLegacy.KsHelperFnCall | generator.py:5-7 | the call head is `self.ks_helper.` followed by exactly the function name |
| GeneratorLegacy.GenFn | generator.py:128-158 | a key outside the 29 base types raises KeyError naming it; a base type gives the call of its generator for the given size |
| GeneratorLegacy.TableSize | generator.py:128-158 | the table has 29 keys and every one of them yields a call |
| GeneratorLegacy.GenFnOnHelper | generator.py:9-123 | every call is on the helper instance: `rand_utf8` for `str` and `strz`, `rand_bytes` for everything else |
| GeneratorLegacy.FixedWidth | generator.py:13-115 | an integer or float tag ignores `n_bytes` and draws exactly as many bytes as its name says, a count that reads back from the call |
| GeneratorLegacy.SizedCalls | generator.py:9-123 | raw bytes, `str` and `strz` pass `n_bytes` on as the first argument, which reads back as the same number; `strz` adds the NUL terminator as a second argument |

## Left out

- I/O and plumbing are not modelled:
  - `write_file_from_include_dir`, `write_base_object_class`, `write_entry_point` and the `generate_code` methods, which write or print text;
  - logger setup;
  - the helper-source file read in both `Python3Generator` constructors, which the `constructor` rows leave out, so `ks_helper_class()` is not modelled;
  - src/main.py.
- `imports()` and `constants()` in both `Python3Generator` classes return constant text and are not modelled.
- Floating point is not modelled: `gen_f4_fn`/`gen_f8_fn` check their bounds against ±infinity, which never fails for a number, and their call text is modelled by `ValueCodeGenerator.FloatCall`. `rand_float`/`rand_double`, `_float_min_max` and the float constants in src/utils/const.py are left out.
- Randomness is modelled only by its range. `Random`, `randint`, `randbytes` and `choice` are nondeterministic draws within the bounds the code passes; their distribution and seeding are not modelled.
- KsHelper.DrawChar: the source redraws a surrogate code point until it gets another; the model draws directly among the non-surrogate code points up to the bound, so the retry loop itself is not modelled.
- The iteration order of Python sets and dicts is not modelled:
  - graph nodes, edge sets and tree children are visited in an arbitrary order, and every property is proved for any order;
  - `DependencyTree` takes a node's children as a sequence.
- DependencyTree.AddChild and DependencyTree.RemoveChildFromTree work on values. The source mutates a node after attaching it to a parent, and every holder of that node sees the change. Aliasing of subtrees is therefore not modelled.
- DependencyTree.AddChild deduplicates by value: the source's set of children compares nodes by identity, so two separately built but equal nodes become two children there and one here.
- Unicode case mapping is modelled for ASCII letters only (`Text.LowerText`, `Text.UpperText`, `Text.TitleFrom`). `Tokens.IsSpace` is the full set of characters `str.isspace` accepts, and `Text.IsLineBreak` the full set of line boundaries `str.splitlines` recognises.
- Text.ParseInt accepts ASCII decimal digits only. Python's `int()` also accepts the other Unicode decimal digits (category Nd), so a `size` written in such digits is rejected here where the source reads it.
- ValueCodeGenerator.Elements visits the keys of a dict contents in `Values.KeyLe` order (ints ascending, then strs in code-point order), because `Values.VDict` keeps no insertion order; Python visits them in insertion order. Which keys are visited, and whether the conversion succeeds (`ValueCodeGenerator.DictContentsOk`), do not depend on the order; the order of the bytes does.
- Emit.Show requires a value other than a list or dict, because the model does not spell out Python's `str()` of containers. The same requirement carries over to every member that formats a size or an id:
  - ValueCodeGenerator.GenBytes, ValueCodeGenerator.GenStr and ValueCodeGenerator.GenStrz;
  - GeneratorLegacy.GenFn and Py3Generator.GenTypeCall;
  - ValueCodeGenerator.GenerateCode: `Formattable` asks the same of its `valid` and `size`.
- CodeGenerator.EntryLine, CodeGenerator.PackLine, CodeGenerator.GenerateSeqEntry and CodeGenerator.GenerateClass require an `id` the model can format (`IdShown`/`AllShown`), for the same reason.
- SeekableBuffers.SeekableBuffer.Write models `write`, which is a stub in the source: it changes nothing and returns nothing.
- CodeGenerator.KsHelperFnCall strips trailing commas and spaces as `rstrip(", ")` does. That can eat part of the last argument, as `CodeGenerator.FnCallDropsEmptyLast` shows. Only arguments not ending in a comma or a space get the plain call text of `CodeGenerator.FnCallClean`.
- CodeGenerator.NoFloatPacked shows that the float `struct` formats are unreachable. `generate_seq_entry` goes through `BaseTypeCodeGenerator`, whose float generators fail on the call with `start` and `end`, so no float attribute gets past `__init__`.
- The entry-point class name comes from `IntermediateRepresentation.entry_point_class_name`. src/datastructure/intermediate_representation.py is not part of this model, so `CodeGenerator.EntryPointText` takes the name as a parameter.
- The sanitisers copied into src/backend/py3_generator.py:137-172 and py3_generator.py:47-63 are modelled once, by `Sanitiser`. The copies behave the same as src/backend/py3/utils/sanitiser.py.
- The three copies of `_utf8_byte_size` are all modelled by `Codecs.ByteSize`.
- generator.py's `TYPE_TO_FN_MAP` holds `staticmethod` objects. The model calls them as if they were functions; how a `staticmethod` object is called under each Python version is not modelled.
- Py3GeneratorLegacy.Lookup raises KeyError without modelling the text of the KeyError message.
- KsHelper90.RandIso8859: the source's `min_n_bytes`/`max_n_bytes` branch cannot run, because `n <= 0` is rejected before it. The model keeps the rejection and omits the dead branch.
- KsHelper.RandIso8859 and KsHelper90.RandIso8859 take the ISO 8859 codec as a parameter. The code tables of the fifteen ISO 8859 parts are not modelled.
- BaseTypeCodeGenerator: the float, `str` and `strz` generators and `generate_code` only raise NotImplementedError. They appear only as the errors of `BaseTypeCodeGenerator.GenWithRange`.
- src/backend/generator.py raises NotImplementedError in every method except `get_gen_type_fn`, which is `Emit.LookupGen`.
- When a frontend pass fails part-way, the source leaves the schema partly rewritten. The models say only which error is raised, not the state left behind.
- Hand-written generators under manual_impl/ and the hashing and CRC wrappers in src/backend/py3/include/_80_functions.py are not part of this model.

## Findings

| source | as written | input that shows it | evidently intended | confidence | as-written member | corrected member |
|---|---|---|---|---|---|---|
| src/datastructure/dependency_tree.py:29-40 | `find_child` assigns every child's recursive answer to `result` and stops only on an immediate hit, so a later sibling's `None` overwrites a deep hit found earlier | root 0 with children 1 (holding child 3) and 2, searching for 3: the search under 1 returns node 3, then the search under 2 returns None, and None is the answer | return the first subtree carrying the data at any depth, as the docstring says and as `remove_child_from_tree` does by stopping on a non-None answer | high (not executed) | DependencyTree.FindChildLosesDeepHit | DependencyTree.FindDescendant |
