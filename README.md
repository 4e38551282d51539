# base16-builder, modelled in Dafny

base16-builder renders colour themes. Each *scheme* is a YAML file under
`schemes/<collection>/` that gives a name, an author and sixteen colours,
`base00` to `base0F`. Each *template* is a Mustache-like text file under
`templates/<program>/templates/`, and its `config.yaml` says where its output
goes and with which file extension. The `build` command renders every
template with every scheme. Rendering is plain string replacement of
`{{...}}` placeholders. The result is written to
`output/<program>/<output>/<slug><extension>`.

This project models the core of `src/main.rs`:

- `strings.dfy` (module `Strings`): Rust's `str::replace` as `ReplaceAll`, a
  single left-to-right pass that replaces non-overlapping occurrences. Also
  ASCII `to_lowercase` and substring search (`contains`).
- `schemes.dfy` (module `Schemes`): the `Scheme` record, slug derivation,
  key dispatch from YAML pairs onto the record, the file-extension filter,
  and `get_schemes` as a loop (`GetSchemes`, `LoadCollection`, `LoadInto`,
  `LoadFile`). Each method is proved equal to a specification function.
- `colors.dfy` (module `Colors`): how one slot value is split into channels.
  This covers `i32::from_str_radix(_, 16)` on two characters (including the
  sign it accepts), Rust's truncating `/ 255`, and `i32::to_string`.
- `render.dfy` (module `Render`): the placeholder tokens and
  `render_template` as a loop over the 16 slots (`RenderTemplate`). The loop
  visits the slots in the `HashMap`'s iteration order, which is an explicit
  `order` parameter.
- `subst.dfy` (module `Substitution`): a one-pass substitution `Subst` over
  the `{{...}}` groups of a template. It is an independent reference for
  what rendering computes. Under stated conditions, rendering is proved equal
  to it for every visit order, which gives order independence.
- `templates.dfy` (module `Templates`): `get_templates` as a loop
  (`GetTemplates`, `LoadProgram`, `LoadEntry`), with the output path and
  extension rules.
- `build.dfy` (module `Build`): `build_schemes` as a nested loop
  (`BuildSchemes`, `BuildRow`, `BuildPair`) over templates × schemes.
  - Directory creation, file writes and console lines are recorded as
    `Effect`s.
  - What each call returns comes from the environment, as the parameter
    `io(i, j)` for template `i` and scheme `j`.
- `wrappers.dfy`: `Option`, and the YAML `Scalar` (a string or anything
  else).

Failure modelling:

- Each `unwrap`, `expect` or out-of-range slice that panics in the source is
  a `None` in the model.
- A panic ends the process. So a panicking render during the build gives a
  `Run` with `finished == false`, and that `Run` keeps the effects already
  made.

### Behaviour of the code worth knowing

- No `{{scheme-slug}}` placeholder is replaced: `render_template`
  (src/main.rs:407-419) never mentions it (`Substitution.SchemeSlugUnknown`),
  so it stays in the output verbatim for every template, scheme and `HashMap`
  order, and the text on its two sides is rendered as if it were two separate
  templates: no replacement can reach across a group that spells no token
  (`Substitution.RenderFromKeepsUnknownGroup`).
- A malformed colour value panics the whole process (src/main.rs:397-402):
  - a value shorter than six characters panics at the slice;
  - a channel that does not parse panics at `unwrap`.
- A channel may carry a sign: `i32::from_str_radix` (src/main.rs:400-402)
  reads `"+f"` as 15 and `"-f"` as -15 (`Colors.SignedChannelsAccepted`).
- An absent `extension` key in `config.yaml` panics at `get(..).unwrap()`
  (src/main.rs:271-273). A present key whose value is not a string gives the
  empty extension (src/main.rs:280).
- An unreadable `config.yaml`, template body or scheme file panics
  (src/main.rs:269-270, 369-373).
- `build_schemes` checks that `sources` and `templates` exist
  (src/main.rs:55), and `get_schemes` then reads the directory `schemes`
  (src/main.rs:89).
- The slug can keep `.yaml` or `.yml` (src/main.rs:103-109), for two reasons:
  - the replacements happen before lowercasing, so `x.YAML.yaml` gives
    `base16-x.yaml` (`Schemes.UpperExtensionSurvives`);
  - deleting one occurrence can join two pieces into a new one: in
    `x.ya.ymlml.yml` (extension `yml`, so the file is loaded) deleting `.yml`
    joins `x.ya` and `ml`, which gives `base16-x.yaml`
    (`Schemes.JoinedExtensionSurvives`).
- The result of rendering can depend on the `HashMap`'s visit order
  (src/main.rs:396). For example, `{{base{{base01-hex-r}}-hex}}` can form a
  new token, depending on which slot is visited first. Order independence is
  proved for templates whose `{{` each open a brace-free `{{...}}` group
  (`Closed`), and for schemes whose values contain no `{` (`BraceFreeScheme`).

## Model

| member | source | states |
|---|---|---|
| Strings.ReplaceAll | src/main.rs:407-419 | `str::replace`: a text in which the pattern does not occur is returned unchanged |
| Strings.ReplacePassesPrefix | src/main.rs:407-419 | replacement passes over a prefix that lacks the pattern's first character |
| Strings.ReplaceKeepsAbsent | src/main.rs:407-419 | a character absent from the text and from the replacement is absent from the result |
| Strings.ReplaceCharRemoves | src/main.rs:106 | replacing every occurrence of a character by text without it leaves no occurrence |
| Strings.ReplaceCharConcat | src/main.rs:106 | replacing a single character distributes over concatenation |
| Strings.ReplaceReducesCount | src/main.rs:407-419 | replacing a pattern that starts with `c` by text without `c` never increases the number of `c`s, and decreases it when the pattern occurs |
| Strings.Lower | src/main.rs:109 | ASCII lowercasing keeps the length and lowers each character |
| Strings.LowerIdempotent | src/main.rs:109 | lowercasing twice is lowercasing once |
| Strings.LowerConcat | src/main.rs:109 | lowercasing distributes over concatenation |
| Strings.LowerKeepsNonLetter | src/main.rs:109 | a non-letter occurs after lowercasing exactly when it occurred before |
| Strings.Occurs | src/main.rs:111 | `contains`: the pattern starts the text or occurs in its tail; `Strings.OccursAt` states what this means by position |
| Strings.OccursAt | src/main.rs:111 | `contains` holds exactly when the pattern is the slice of the text at some index |
| Strings.OccursChar | src/main.rs:111 | `contains` of a one-character pattern is membership |
| Strings.OccursPrefix | src/main.rs:111 | a text containing `p` contains every prefix of `p` |
| Schemes.SlotName | src/main.rs:16-31 | every slot key has six characters and starts with `base0` |
| Schemes.SlotOfKey | src/main.rs:173-220 | a key selects slot `k` exactly when it is `k`'s name |
| Schemes.EmptyScheme | src/main.rs:135-155 | a fresh scheme has the file's slug, and the name, the author and the sixteen colours empty |
| Schemes.SetField | src/main.rs:166-222 | one arm of the key `match`: the slug never changes, only `scheme` changes the name, only `author` changes the author, and a key that names no slot leaves the colours alone |
| Schemes.SetFieldSlot | src/main.rs:166-222 | a `base0X` key sets exactly its own slot, and every other key leaves slot `k` alone |
| Schemes.DispatchLastWins | src/main.rs:157-223 | after the key loop, each field holds the value of the last pair with its key, or its initial value; the slug is unchanged |
| Schemes.DispatchSucceedsIffStrings | src/main.rs:158-164 | the key loop avoids a panic exactly when every key and every value is a string |
| Schemes.IgnoredKeyKeepsRecord | src/main.rs:221 | a key other than `scheme`, `author` and the sixteen slots leaves the record unchanged |
| Schemes.DispatchPairs | src/main.rs:157-223 | the key loop computes the dispatch specification |
| Schemes.AddPrefix | src/main.rs:111-115 | the result contains `base16-`, and a name that already contains it is kept |
| Schemes.Slug | src/main.rs:103-115 | spaces become `_`, `.yaml` then `.yml` are deleted, the text is lowercased and prefixed; every slug contains `base16-` |
| Schemes.SlugShape | src/main.rs:103-115 | every slug contains `base16-` and no space |
| Schemes.AddPrefixIdempotent | src/main.rs:111-115 | the prefix rule is idempotent |
| Schemes.SlugStripsExtension | src/main.rs:103-115 | the slug of `stem.yaml` or `stem.yml`, with a dot-free stem, is the prefixed, lowercased stem with spaces made `_` |
| Schemes.SlugOfPlainStem | src/main.rs:103-115 | such a slug contains no `.`, `.yaml` or `.yml` |
| Schemes.SlugIdempotent | src/main.rs:103-115 | a slug that contains no `.yaml` or `.yml` is its own slug |
| Schemes.SlugIsLower | src/main.rs:103-115 | every slug is lower case |
| Schemes.UpperExtensionSurvives | src/main.rs:106-109 | `stem.YAML.yaml` gives a slug that still contains `.yaml` |
| Schemes.JoinedExtensionSurvives | src/main.rs:103-125 | `stem.ya.ymlml.yml` is read as a scheme, and deleting `.yml` joins a new `.yaml` that its slug keeps |
| Schemes.LastDot | src/main.rs:117-122 | the last `.` of a file name: no `.` follows it |
| Schemes.FileExtension | src/main.rs:117-122 | `Path::extension`: the text after the last `.` when something precedes that dot; it is dot-free and shorter than the name without its dot |
| Schemes.FileExtensionSplit | src/main.rs:117-125 | `Path::extension` of `stem.ext` (non-empty stem, dot-free ext) is `ext` |
| Schemes.FileExtensionShape | src/main.rs:117-125 | an extension is dot-free, and the name is stem, `.`, extension |
| Schemes.IsSchemeFile | src/main.rs:124-125 | the `yaml`/`yml` filter: every accepted name ends in `.yaml` or `.yml` after a non-empty stem |
| Schemes.SchemesOfSlugs | src/main.rs:97-115 | each loaded scheme carries the slug of its scheme file, in file order |
| Schemes.SchemesStep | src/main.rs:124-226 | a `.yaml`/`.yml` file adds its scheme, another file adds nothing, a panic stays a panic |
| Schemes.GetSchemes | src/main.rs:86-232 | the nested directory/file loop computes `get_schemes`'s specification |
| Schemes.LoadCollection | src/main.rs:97-228 | the loop over one collection's files extends the schemes loaded so far |
| Schemes.LoadInto | src/main.rs:124-226 | one file step of the loop |
| Schemes.LoadFile | src/main.rs:98-225 | one scheme file: slug, then the key loop over its YAML mapping |
| Schemes.CollectionFailureIsFatal | src/main.rs:89-97 | a panic inside one collection is a panic of `get_schemes` |
| Colors.ParseChannel | src/main.rs:400-402 | `from_str_radix(_, 16)` on a channel yields a value in -15..255 |
| Colors.ParseHexByte | src/main.rs:400-402 | parsing inverts two-digit hex encoding |
| Colors.HexByteOfParse | src/main.rs:400-402 | a channel of two hex digits is, up to case, the encoding of its value |
| Colors.TruncDiv | src/main.rs:403-405 | Rust `/` truncates toward zero |
| Colors.DecChannel | src/main.rs:403-405 | `rgb / 255` truncated toward zero: 0 for every value strictly between -255 and 255, and 1 for 255 |
| Colors.DecChannelIsFlag | src/main.rs:403-405 | `rgb / 255` is 1 for 255 and 0 for every other parsable value |
| Colors.IntString | src/main.rs:413-415 | `i32::to_string`: never empty, with a leading `-` exactly for a negative number |
| Colors.NatStringRoundTrip | src/main.rs:413-415 | the decimal digits of `to_string` read back as the number |
| Colors.SplitChannels | src/main.rs:397-405 | on success the value has at least six characters, the channels are its slices `[0..2]`, `[2..4]`, `[4..6]` and concatenate to `v[..6]`, and each decimal is 0 or 1 |
| Colors.SplitChannelsSucceedsIff | src/main.rs:397-402 | no panic exactly when the value has six characters and each slice is accepted |
| Colors.SplitChannelsUsesPrefix | src/main.rs:397-399 | only the first six characters matter |
| Colors.SixHexDigitsAccepted | src/main.rs:397-402 | six hex digits never panic |
| Colors.DecOneIffFF | src/main.rs:400-405 | a decimal channel is 1 exactly when its hex channel is `ff` in either case |
| Colors.RedDecimals | src/main.rs:397-405 | `FF0000` has decimals 1, 0, 0 |
| Colors.SignedChannelsAccepted | src/main.rs:400-405 | `+f-f+0` is accepted and has decimals 0, 0, 0 |
| Render.RenderTemplate | src/main.rs:375-423 | the slot loop computes `RenderFrom` for the given visit order |
| Render.Replacement | src/main.rs:397-419 | the text a token becomes; there is none exactly for a slot token whose slot value does not split |
| Render.RenderSlot | src/main.rs:396-420 | one iteration of the slot loop; a text that contains no token comes back unchanged, or the iteration panics |
| Render.RenderFrom | src/main.rs:396-420 | the slot loop over a visit order; when it finishes, every visited slot's value has split |
| Render.SlotStepUnfolds | src/main.rs:397-419 | one loop iteration is the ten `replace` calls of the source, with their patterns and values, in order |
| Render.StepValues | src/main.rs:407-419 | the value each of those ten tokens is replaced by |
| Render.RenderFromFails | src/main.rs:396-402 | rendering panics exactly when some visited slot's value is rejected |
| Render.RenderFailsIff | src/main.rs:378-402 | with every slot visited, rendering panics exactly when some slot value fails to split |
| Render.TokenTextShape | src/main.rs:407-419 | every token has at least 14 characters and starts with `{{` |
| Render.RenderUntouched | src/main.rs:407-419 | a template containing no token comes back unchanged (or panics) |
| Render.RenderWithoutBraces | src/main.rs:407-419 | a template without `{{` comes back unchanged when every slot value splits |
| Render.RenderShortTemplate | src/main.rs:407-419 | a template shorter than any token comes back unchanged when every slot value splits |
| Render.SlotReplacements | src/main.rs:397-419 | `-hex` is the whole value; `-hex-r/g/b` concatenate to its first six characters; `-hex-bgr` is B, G, R; `-dec-*` is `1` exactly for `ff` |
| Render.BgrExample | src/main.rs:416-419 | `1234AB` gives `AB3412` for `-hex-bgr` |
| Substitution.GroupAt | src/main.rs:407-419 | a group found at the head of a text is `{{`, brace-free text, `}}` |
| Substitution.ParseTokenRoundTrip | src/main.rs:407-419 | every token's text parses back to the token |
| Substitution.ParseTokenSound | src/main.rs:407-419 | a group that parses is the text of the token it parses to |
| Substitution.TokenTextInjective | src/main.rs:407-419 | distinct tokens have distinct texts |
| Substitution.SubstNothing | src/main.rs:407-419 | substituting no token leaves the text unchanged |
| Substitution.SubstStep | src/main.rs:407-419 | one `replace` of a token on a substituted closed text substitutes that token too |
| Substitution.ReplaceTokensSubst | src/main.rs:407-419 | a run of `replace` calls substitutes the set of their tokens |
| Substitution.RenderFromSubst | src/main.rs:396-420 | the slot loop substitutes every token it visits |
| Substitution.VisitedMembers | src/main.rs:396-420 | the loop visits the name and author tokens and the tokens of each visited slot |
| Substitution.VisitOrderVisitsAll | src/main.rs:378-396 | a full visit order visits every token |
| Substitution.InsertionOrder | src/main.rs:379-394 | the insertion order of the map is a visit order |
| Substitution.RenderIsSubst | src/main.rs:375-423 | for a closed template and a brace-free scheme, rendering is the one-pass substitution of all tokens |
| Substitution.RenderOrderIndependent | src/main.rs:396 | under those conditions the result does not depend on the `HashMap` order |
| Substitution.SubstAllFixed | src/main.rs:407-419 | replacing any token again changes nothing |
| Substitution.RenderLeavesNoToken | src/main.rs:407-419 | the output contains no token, and re-applying any `replace` changes nothing |
| Substitution.SubstTokenGroup | src/main.rs:407-419 | a token occurrence becomes its value |
| Substitution.SubstUnknownGroup | src/main.rs:407-419 | an unknown `{{...}}` group is kept verbatim |
| Substitution.SubstPlain | src/main.rs:407-419 | text without `{` is kept |
| Substitution.TwoTokenTemplateSubst | src/main.rs:407-419 | every occurrence of a token is replaced, and an unknown group between the occurrences survives |
| Substitution.TokenEverywhere | src/main.rs:375-423 | the same for rendering, with any visit order, for a brace-free scheme and brace-free surrounding text (the unknown group alone needs neither: `Substitution.RenderFromKeepsUnknownGroup`) |
| Substitution.GroupNotStraddled | src/main.rs:407-419 | an occurrence of a token that starts before a `{{` ends before it |
| Substitution.UnknownGroupBarrier | src/main.rs:407-419 | one `replace` of a token keeps a group that spells another name and replaces on each side of it separately, for any text |
| Substitution.ReplaceTokensKeepsUnknownGroup | src/main.rs:407-419 | the same for the ten `replace` calls of one slot |
| Substitution.RenderSlotKeepsUnknownGroup | src/main.rs:396-419 | the same for one iteration of the slot loop, which fails for both sides or for neither |
| Substitution.RenderFromKeepsUnknownGroup | src/main.rs:375-423 | for any template, scheme and visit order, a group that spells no token (such as `{{scheme-slug}}`) is kept verbatim and the text on either side is rendered independently; both sides fail together |
| Substitution.SchemeSlugUnknown | src/main.rs:407-419 | `scheme-slug` names no token |
| Templates.OutputPath | src/main.rs:281 | `output/<program>/<output>`: it starts with `output/<program>/`, and the rest is the output value |
| Templates.OutputPathInjective | src/main.rs:281 | programs without `/` in their names never share an output path, and the output value is recoverable |
| Templates.MakeTemplate | src/main.rs:255-282 | an entry yields a template exactly when its name is a string with a readable body, `extension` is present and `output` is a string; the contents are the body; the path is `OutputPath(program, output)`, so it starts with `output/<program>/`; a string extension is kept as written and a non-string one gives `""` |
| Templates.EntriesTemplatesPointwise | src/main.rs:255-283 | one template per entry, in order |
| Templates.EntriesTemplatesFailIff | src/main.rs:255-283 | a program's entries panic exactly when one entry does |
| Templates.DirTemplatesOutput | src/main.rs:274-281 | every template of a program writes below `output/<program>/` |
| Templates.TemplatesUnderOutput | src/main.rs:234-287 | every template `get_templates` loads writes below `output/` |
| Templates.GetTemplates | src/main.rs:234-287 | the nested loop computes `get_templates`'s specification |
| Templates.LoadProgram | src/main.rs:252-283 | one program directory |
| Templates.LoadEntry | src/main.rs:256-282 | one manifest entry |
| Build.TextDetermines | src/main.rs:56-79 | the four console lines of the build (missing sources, a failed directory, a failed write, a built file) never coincide: a line determines its kind and the file it names |
| Build.FilePath | src/main.rs:71 | `<output_path>/<slug><extension>`: the file lies inside the template's output directory |
| Build.PairRun | src/main.rs:64-81 | the body of the inner loop; its first effect is always the creation of the template's output directory |
| Build.PairWritesInside | src/main.rs:71-74 | a pair writes only its own file, and only when it renders |
| Build.RowRun | src/main.rs:63-82 | the inner loop as a function, stopping at the first panicking pair; `Build.RowFinishesIff`, `Build.RowWrites` and `Build.RowWritesInside` state its properties |
| Build.RowWritesInside | src/main.rs:63-82 | every file a row writes lies in its template's output directory |
| Build.GridRun | src/main.rs:62-83 | the outer loop as a function, stopping at the first panicking row; `Build.GridFinishesIff`, `Build.GridWrites` and `Build.GridWritesUnderOutput` state its properties |
| Build.GridWritesUnderOutput | src/main.rs:62-83 | when every template writes below `output/`, so does every file of the build |
| Build.BuildSpec | src/main.rs:54-84 | `build_schemes`: the existence check, the two loads, then the grid; every file the build writes lies below `output/` |
| Build.BuildSchemes | src/main.rs:54-84 | the build computes its specification: a missing directory gives one error line, a failed load a panic, otherwise the template-major grid |
| Build.BuildRow | src/main.rs:63-82 | the inner loop over the schemes for one template |
| Build.BuildPair | src/main.rs:64-81 | one pair: create the directory (reporting failure and going on), render, write and report |
| Build.RowStep | src/main.rs:63-82 | the inner loop extends by one pair |
| Build.GridStep | src/main.rs:62-83 | the outer loop extends by one row |
| Build.PairWrites | src/main.rs:64-81 | a pair finishes exactly when rendering succeeds, and then writes exactly its rendered file at `FilePath` |
| Build.RowFinishesIff | src/main.rs:63-82 | a row finishes exactly when every render in it succeeds |
| Build.RowWrites | src/main.rs:63-82 | a finished row writes one file per scheme, in scheme order |
| Build.GridFinishesIff | src/main.rs:62-83 | the build finishes exactly when every template × scheme render succeeds |
| Build.GridWrites | src/main.rs:62-83 | a finished build makes one write per template and scheme; with `m` schemes, write number `i * m + j` is template `i` with scheme `j` |
| Build.WritesIgnoreFailures | src/main.rs:64-69 | failed directory creations and writes change neither the writes attempted nor whether the build finishes |
| Build.BuildFinishesIff | src/main.rs:62-83 | with real renders, the build finishes exactly when there is no template or every scheme's sixteen values split |
| Build.FilePathInjective | src/main.rs:71 | for one template, two schemes get the same file path exactly when their slugs are equal |

## Left out

- `download_sources` and `git_clone` (src/main.rs:289-338, 352-367): network and git I/O.
- `read_yaml_file` (src/main.rs:369-373): the parsed mapping is an input, a sequence of (key, value) scalar pairs. A missing or unparsable file is `None`.
- File system calls (`metadata`, `read_dir`, `create_dir_all`, `write`, `read_to_string`) are inputs. Directory listing order is the order of the input sequences.
- The `Reading scheme` and `Reading template` console lines, and the colour of the `error`/`success` output (src/main.rs:340-350): only the build's own lines are recorded, as `Effect`s.
- Non-UTF-8 names: directory and file names are Dafny strings, so no input stands for the `to_str().unwrap()` panic on a name that is not valid UTF-8 (src/main.rs:93-95, 103-105, 242-250). The outcome of such a run, a panic (`None`), is still reachable through other inputs.
- `main` and `Args` (src/main.rs:3-9, 41-52): command-line parsing.
- Strings.Lower: ASCII lowercasing only, where the source uses Unicode `to_lowercase`.
- Colors.SplitChannels: strings are sequences of characters, where the source slices UTF-8 bytes. The outcomes agree. A non-ASCII character in the first six bytes makes the source panic, either at the slice or at `from_str_radix`, and the model rejects that channel. i32 overflow is not modelled, because a two-character channel cannot reach it.
- Render.RenderTemplate: the `HashMap` iteration order is a parameter, because the source leaves it unspecified.
- Substitution.RenderOrderIndependent: proved only for `Closed` templates and `BraceFreeScheme` schemes; without them a replacement can create a new token.
- Substitution.RenderLeavesNoToken: states that the output contains no `{{scheme-name}}` under the same two conditions. The weaker condition that only the name does not contain `{{scheme-name}}` is not enough for the source: a colour value such as `ffffff{{scheme-name}}` still splits (only its first six characters are read, `Colors.SplitChannelsUsesPrefix`), and when its slot is visited last, its `-hex` token is replaced after `{{scheme-name}}` (src/main.rs:407-409), so the output keeps a `{{scheme-name}}`. The slot values must be brace-free too.
- Schemes.SlugOfPlainStem: "no `.yaml` or `.yml`" is proved only for stems without `.`, because it fails for other names (`Schemes.UpperExtensionSurvives`, `Schemes.JoinedExtensionSurvives`).
- Build.BuildSchemes: a panic stops the model; a panic's message and exit code are not modelled.
