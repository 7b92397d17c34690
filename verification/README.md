# Argument-mapping framework of `cg`, modelled in Dafny

`cg` wraps external command-line tools such as `grep`. At its core is a
framework that turns typed option values into the flat list of string tokens
passed to the external command. This project models that framework, which
lives in `cg/src/command/framework.rs`:

- **`Name`** (`names.dfy`, module `Names`) is the role of an entry on the
  command line: a positional `Blank(index)`, a `Short(char)` flag, a
  `Long(string)` flag, or `Undefined`. The module covers how a name is
  displayed, how it is read from a captured descriptor fragment, and how it is
  applied to an entry's tokens. It also holds the equality and order of
  entries, which look only at their names. The order puts positionals first,
  then short flags, then long flags. The module proves that this order is
  antisymmetric and transitive, and that it answers `Equal` exactly when the
  names are equal. From that it follows that a sorted sequence of names keeps
  all positionals before all flags.
- **`Argument`** (`arguments.dfy`, module `Arguments`) is the closed set of
  value kinds: `Text`, `PathPattern`, `BooleanFlag`, `CollectionText` and
  `CollectionPathPattern`, each with an optional payload. The module covers
  filling an argument with a caller's string, path, boolean or optional path
  (`FillArgument`). It also covers generating the tokens of an argument
  (`GenerateTokens`) and vectorisation, which flattens values and lists of
  values into tokens in order. `Vectorize` is the loop the source runs over a
  list.
- **`DefaultValue`** and **`Entry`** (`entries.dfy`, module `Entries`) hold the
  default policy (`Mandatory`, `Skip`, `Default(constant)`) and the entry
  itself. `Entry` is a class whose `targetType` is updated in place by
  `Fill`. `Conform` applies the default policy on a copy of the entry.
  `Transform` fills, conforms and applies the name. Each method is specified
  by a pure function (`FillArgument`, `ConformTokens`, `TransformEntry`), and
  the lemmas are proved about those functions.
- `schemas.dfy` (module `Schemas`) runs a small grep-style schema through the
  entry methods as worked examples. It is example data, not a copy of any
  schema in the repository.

Every place where the source aborts the process (`panic!`, `unwrap` on a
failed parse, out-of-range string slicing) becomes an `Err` of the `Error`
datatype in `results.dfy`. Paths are strings, and a path's display text is the
path itself. Strings are sequences of characters. Rust compares `String`s by
their UTF-8 bytes, which gives the same order as comparing code points, so
`LexCompare` compares characters.

Some behaviour of the code is easy to miss, and the model keeps it as written:
- `generate` fails on the collection kinds (`cg/src/command/framework.rs:146`).
  The trait comment at line 77 says its result is a vector "because of
  collection arguments", yet no collection is ever serialised. The list
  vectorisation that would serialise them (lines 161-170) is modelled, but
  nothing reaches it.
- The mandatory-value failure (line 341) carries no entry name.
- `name` (lines 50-55) accepts only positional names. Any entry with a flag
  name therefore fails in `Transform` (line 362), so a flag such as `-i`
  cannot currently be turned into tokens.
- A positional name renders as the empty string (line 32).

## Model

| member | source | states |
|---|---|---|
| `Names.DisplayRoundTrip` | cg/src/command/framework.rs:27-48 | `Short(c)` displays as `"-" + c` and `Long(s)` as `"--" + s`; each rendering parses back to the same name |
| `Names.Display` | cg/src/command/framework.rs:27-36 | `Short(c)` renders as `"-" + c`, `Long(s)` as `"--" + s`, `Blank(_)` as `""`; displaying fails exactly for `Undefined`, with an unsupported-name error |
| `Names.ApplyName` | cg/src/command/framework.rs:50-55 | a positional name returns the tokens unchanged; `Short`, `Long` and `Undefined` fail |
| `Names.ParseDecimal` | cg/src/command/framework.rs:42 | the decimal numeral of every `u8`, with or without a leading `+`, parses back to that index |
| `Names.ParseU8` | cg/src/command/framework.rs:42 | an empty string or a lone `+` fails; a string of digits parses exactly when its value is at most 255, to that value; a first character that is neither a digit nor `+` fails |
| `Names.NameFromFragment` | cg/src/command/framework.rs:40-46 | a parsed name has the shape that was asked for; short and long fragments parse exactly when they have at least two characters; a short name's flag is the fragment's second character and a long name is the fragment minus its first two characters; a blank fragment parses exactly when it is non-empty and the rest after its first character is a `u8` numeral (so `#999` fails and `#007`, `#+7` give index 7), and the index is that numeral's value |
| `Names.NameFromTagged` | cg/src/command/framework.rs:37-48 | any tag other than `d1`, `d2`, `d3` is an error, and a parsed name's shape matches its tag |
| `Names.TaggedRoundTrip` | cg/src/command/framework.rs:41-44 | `#n` under `d1` gives `Blank(n)`, `-c` under `d2` gives `Short(c)`, `--s` under `d3` gives `Long(s)` |
| `Names.TaggedMissesNameGroups` | cg/src/command/framework.rs:37-48 | as written, a capture tagged with a name group (`n1`, `n2`, `n3`) is always refused, and the `d1` capture `!` of the example descriptor is malformed |
| `Names.NameFromCapture` | cg/src/command/framework.rs:307 | corrected parser: tags other than `n1`, `n2`, `n3` are errors, and a parsed name's shape matches its tag |
| `Names.CaptureRoundTrip` | cg/src/command/framework.rs:307 | corrected parser: every defined name parses back from its descriptor fragment under its name-group tag |
| `Names.NamesEqual` | cg/src/command/framework.rs:216-241 | equality fails exactly when a name is `Undefined`; otherwise it holds exactly when the names are identical, so different variants are never equal and equal variants compare their payloads |
| `Names.CompareNames` | cg/src/command/framework.rs:242-267 | comparison fails exactly when a name is `Undefined`; blanks come before shorts and shorts before longs; two blanks compare by index, two shorts by character and two longs by `LexCompare` |
| `Names.LexCompare` | cg/src/command/framework.rs:255 | a proper prefix comes before the longer string, and a proper extension after its prefix |
| `Names.LexFirstDifference` | cg/src/command/framework.rs:255 | at the first position where two strings differ, the smaller character decides their order |
| `Names.CompareAntisymmetric` | cg/src/command/framework.rs:242-267 | swapping the operands flips `Less` and `Greater` and keeps `Equal` |
| `Names.CompareTransitive` | cg/src/command/framework.rs:242-267 | `a < b` and `b < c` give `a < c`, including lexicographic order on long names |
| `Names.CompareAgreesWithEquality` | cg/src/command/framework.rs:216-267 | on defined names the comparison answers `Equal` exactly when `eq` holds, that is, exactly when the names are identical |
| `Names.AdjacentSortedIsSorted` | cg/src/command/framework.rs:366-371 | a sequence whose neighbours are in order is in order throughout, as an ordered set of entries is |
| `Names.PositionalsFirst` | cg/src/command/framework.rs:243 | in a sorted sequence, an earlier name never has a later kind: positionals, then shorts, then longs |
| `Names.SortedIsDuplicateFree` | cg/src/command/framework.rs:219 | no two names of a sorted sequence are equal |
| `Arguments.FromText` | cg/src/command/framework.rs:81-85 | an argument built from a string is a filled `Text` that generates exactly that string |
| `Arguments.FromPath` | cg/src/command/framework.rs:86-90 | an argument built from a path is a filled `PathPattern` that generates exactly the path's display text |
| `Arguments.Tokens` | cg/src/command/framework.rs:161-186 | a string, path or boolean gives exactly one token; a list gives its items' tokens in order (with `ConcatAppend` and `FlatListTokens`) |
| `Arguments.FillArgument` | cg/src/command/framework.rs:97-137 | filling succeeds exactly when the kind takes the value (text into `Text`; path into `PathPattern` or `Text`; boolean into `BooleanFlag` or `Text`); every other pairing is a type mismatch; the kind never changes |
| `Arguments.FillThenGenerate` | cg/src/command/framework.rs:97-160 | after a fill, generation gives the value's own tokens whichever kind took it: the string, the path's display text, `"true"`/`"false"`, or none for an absent optional path, which clears the payload |
| `Arguments.GenerateTokens` | cg/src/command/framework.rs:140-149 | generation fails exactly on the collection kinds; otherwise it gives one token when the payload is present and none when it is absent |
| `Arguments.OptionalVectorization` | cg/src/command/framework.rs:155-160 | an absent value gives no tokens, and a present value gives exactly its own tokens (`Tokens`) |
| `Arguments.Vectorize` | cg/src/command/framework.rs:161-186 | the loop over a list builds exactly the concatenation of the items' tokens, in list order |
| `Arguments.ConcatAppend` | cg/src/command/framework.rs:161-170 | the tokens of two lists joined are the tokens of the first followed by those of the second |
| `Arguments.FlatListTokens` | cg/src/command/framework.rs:161-186 | a list of strings, paths or booleans gives one token per item, the k-th token being the k-th item's |
| `Entries.ConformTokens` | cg/src/command/framework.rs:334-356 | tokens that a value gives are returned whatever the policy; with none, `Skip` gives `[]`, `Mandatory` fails with missing-mandatory and `Default(x)` gives the tokens of `x`; a generation failure is passed on |
| `Entries.TransformEntry` | cg/src/command/framework.rs:357-363 | a value the argument does not take fails with a type mismatch; success needs a positional name; for a positional entry that takes the value, the result is conform applied to the filled argument |
| `Entries.FilledIgnoresPolicy` | cg/src/command/framework.rs:326-356 | an entry filled with a present value conforms to exactly that value's one token under every policy |
| `Entries.ClearedFallsBack` | cg/src/command/framework.rs:123-137 | an entry cleared with an absent path gives `[]` under `Skip`, missing-mandatory under `Mandatory` and the constant's tokens under `Default` |
| `Entries.FlagEntriesFail` | cg/src/command/framework.rs:357-363 | transforming an entry with a flag name always fails; whenever fill and conform succeed (always so for a present value, and for an absent path under `Skip` or a generating `Default`) the error is the unsupported-name error of line 53 |
| `Entries.PositionalTransform` | cg/src/command/framework.rs:357-363 | a positional entry transforms to the conformed tokens of its filled argument, and to exactly the value's token when the value is present |
| `Entries.EntryFromDescriptor` | cg/src/command/framework.rs:306-313 | reading an entry from a descriptor fails for every descriptor |
| `Entries.Entry.constructor` | cg/src/command/framework.rs:205-211 | a new entry holds the given policy, name and argument |
| `Entries.Entry.Equals` | cg/src/command/framework.rs:216-241 | two entries are equal exactly when their names are; an undefined name fails |
| `Entries.Entry.Compare` | cg/src/command/framework.rs:242-267 | entries compare as their names do under `CompareNames`, so the order laws proved there hold for entries; an undefined name fails |
| `Entries.Entry.Generate` | cg/src/command/framework.rs:331-333 | an entry generates from its argument: it fails exactly on a collection kind, and otherwise gives one token when filled and none when empty |
| `Entries.Entry.Fill` | cg/src/command/framework.rs:328-330 | the argument is replaced in place by its filled form; on a mismatch it is left unchanged and the call fails |
| `Entries.Entry.Conform` | cg/src/command/framework.rs:334-356 | the result is the conformed tokens of the entry's policy and argument; the default is applied on a copy |
| `Entries.Entry.Transform` | cg/src/command/framework.rs:357-363 | the result is fill, then conform, then the name applied, stopping at the first failure; the argument afterwards is the filled one |

## Findings

| source | as written | input that shows it | evidently intended | confidence | as-written member | corrected member |
|---|---|---|---|---|---|---|
| cg/src/command/framework.rs:37-48 | the name parser dispatches on the tags `d1`, `d2`, `d3`, which in the descriptor pattern of line 307 name the default-policy groups (`!`, `<...>`, empty) | the descriptor `#0!{pattern}[str]` of line 305: the name group `n1` captures `#0` and is refused as an unknown tag; the group `d1` captures `!`, which has no index after its first character | dispatch on the name groups `n1`, `n2`, `n3`, whose captures `#\d{1,3}`, `-\pL`, `--\pL+` have exactly the shapes the three arms read | medium, not executed | `Names.TaggedMissesNameGroups` | `Names.CaptureRoundTrip` |

## Left out

- Process spawning and piping (`build`, `begin`, `link`, `finish` in `cg/src/main.rs`) is operating-system I/O and is not part of this model.
- The `Args` option structures in `cg/src/main.rs` and `cg/src/command/mod.rs` are declarative input to an external option-parsing library. They are not part of this model.
- `cg/src/command/tools.rs` is not part of this model. It refers to types and variants that `framework.rs` does not define.
- `Entries.EntryFromDescriptor`: the descriptor pattern is compiled, but its captures are ignored and the result is always an error. Only that outcome is modelled, not the pattern's grammar.
- `Convertible` (`populate`, `generate`) has signatures only and no implementation. There is no mapper here; the order an ordered set of entries would have is stated over sorted sequences of names.
- `SourceFormatter` has placeholder variants with no behaviour. The `source` field of an entry is therefore omitted.
- Panics end the process in the source. Here they are error results, so the model does not capture that a failure aborts everything after it.
- `Names.NameFromFragment`: Rust slices strings by byte offset and panics when an offset falls inside a multi-byte character. The model slices by character, which agrees whenever the dropped marker characters are ASCII.
- `PathBuf::display` is taken as the identity on paths modelled as strings. Platform path semantics and lossy display of non-UTF-8 paths are not modelled.
- `Entries.Entry.Transform`: the source's `transform` and `conform` take the entry by value, so the caller's entry is consumed. The model keeps the entry and states its filled argument afterwards, which the source's caller cannot observe.
- `Default for Name` (`Undefined`) is the constant `Names.DefaultName`. It has no contract.
